/** Constants of the synthetic FAT32 volume (dbfat.h). */
module Layout {
  const BYTES_PER_SECTOR := 512
  const SECTORS_PER_CLUSTER := 64
  const RESERVED_SECTORS := 32
  const TOTAL_SECTORS := 0x1000_0000
  const FAT_SECTORS := (TOTAL_SECTORS - RESERVED_SECTORS + 1026 - 1) / 1026
  const ROOT_CLUSTER := 2
  const BYTES_PER_CLUSTER := 32768
  const DATA_START := RESERVED_SECTORS + 2 * FAT_SECTORS
  const N_CLUSTERS := (TOTAL_SECTORS - DATA_START) / SECTORS_PER_CLUSTER
  const FAT_LENGTH := FAT_SECTORS * 128

  const FAT_FREE := 0x0000_0000
  const FAT_EOFC := 0x0FFF_FFFF

  const DIR_ENTRY_SIZE := 32
  const LONG_NAME_CHARS := 13

  lemma VolumeNumbers()
    ensures FAT_SECTORS == 261633 && DATA_START == 523298
    ensures N_CLUSTERS == 4186127 && FAT_LENGTH == 33489024 && TOTAL_SECTORS == 0x1000_0000
    ensures BYTES_PER_SECTOR == 512 && SECTORS_PER_CLUSTER == 64 && BYTES_PER_CLUSTER == 512 * 64
    ensures RESERVED_SECTORS == 32 && ROOT_CLUSTER == 2
  {
  }
}
