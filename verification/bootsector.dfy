/** The two constant sectors of the volume (BOOT_SECTOR and FS_INFO of dbfat.h). */
module BootSector {
  import opened Words
  import opened Layout

  const FS_INFO_SECTOR := 1
  const BACKUP_BOOT_SECTOR := 6
  const VOLUME_ID := 111111

  /** Jump, OEM name, and the fields that FAT32 has in common with its predecessors. */
  function CommonFields(): (b: seq<u8>)
    ensures |b| == 36
  {
    [0xEB, 0x00, 0x90,
     0x4D, 0x53, 0x57, 0x49, 0x4E, 0x34, 0x2E, 0x31,
     BYTES_PER_SECTOR % 0x100, BYTES_PER_SECTOR / 0x100,
     SECTORS_PER_CLUSTER,
     RESERVED_SECTORS % 0x100, RESERVED_SECTORS / 0x100,
     0x02,
     0x00, 0x00, 0x00, 0x00,
     0xF0,
     0x00, 0x00, 0x00, 0x00, 0x00, 0x00, 0x00, 0x00, 0x00, 0x00]
    + Bytes32(TOTAL_SECTORS)
  }

  /** The fields of FAT32 up to the backup boot sector, reserved bytes, and the extended boot signature. */
  function Fat32Fields(): (b: seq<u8>)
    ensures |b| == 31
  {
    Bytes32(FAT_SECTORS) + [0x00, 0x00, 0x00, 0x00] + Bytes32(ROOT_CLUSTER)
    + [FS_INFO_SECTOR, 0x00, BACKUP_BOOT_SECTOR, 0x00]
    + [0x00, 0x00, 0x00, 0x00, 0x00, 0x00, 0x00, 0x00, 0x00, 0x00, 0x00, 0x00]
    + [0x00, 0x00, 0x29]
  }

  /** Volume number, volume label, and the name of the file system. */
  function VolumeFields(): (b: seq<u8>)
    ensures |b| == 23
  {
    Bytes32(VOLUME_ID)
    + [0x44, 0x52, 0x4F, 0x50, 0x42, 0x4F, 0x58, 0x20, 0x42, 0x4F, 0x58]
    + [0x46, 0x41, 0x54, 0x33, 0x32, 0x20, 0x20, 0x20]
  }

  /** BOOT_SECTOR */
  function Boot(): (b: seq<u8>)
    ensures |b| == BYTES_PER_SECTOR
  {
    CommonFields() + Fat32Fields() + VolumeFields() + Zeros(420) + [0x55, 0xAA]
  }

  /** FS_INFO */
  function FsInfo(): (b: seq<u8>)
    ensures |b| == BYTES_PER_SECTOR
  {
    [0x52, 0x52, 0x61, 0x41] + Zeros(480) + [0x72, 0x72, 0x41, 0x61]
    + [0xFF, 0xFF, 0xFF, 0xFF, 0xFF, 0xFF, 0xFF, 0xFF] + Zeros(12) + [0x00, 0x00, 0x55, 0xAA]
  }

  lemma Parts(a: seq<u8>, b: seq<u8>, c: seq<u8>, d: seq<u8>, e: seq<u8>)
    ensures var s := a + b + c + d + e;
            && (forall i :: 0 <= i < |a| ==> s[i] == a[i])
            && (forall i :: 0 <= i < |b| ==> s[|a| + i] == b[i])
            && (forall i :: 0 <= i < |c| ==> s[|a| + |b| + i] == c[i])
            && (forall i :: 0 <= i < |e| ==> s[|a| + |b| + |c| + |d| + i] == e[i])
  {
  }

  lemma BootParts()
    ensures var b := Boot();
            && (forall i :: 0 <= i < 36 ==> b[i] == CommonFields()[i])
            && (forall i :: 36 <= i < 67 ==> b[i] == Fat32Fields()[i - 36])
            && (forall i :: 67 <= i < 90 ==> b[i] == VolumeFields()[i - 67])
            && b[510] == 0x55 && b[511] == 0xAA
  {
    hide CommonFields, Fat32Fields, VolumeFields;
    var b := Boot();
    Parts(CommonFields(), Fat32Fields(), VolumeFields(), Zeros(420), [0x55, 0xAA]);
    forall i | 36 <= i < 67 ensures b[i] == Fat32Fields()[i - 36] {
      assert b[36 + (i - 36)] == Fat32Fields()[i - 36];
    }
    forall i | 67 <= i < 90 ensures b[i] == VolumeFields()[i - 67] {
      assert b[67 + (i - 67)] == VolumeFields()[i - 67];
    }
    assert b[510 + 0] == 0x55 && b[510 + 1] == 0xAA;
  }

  /** The fields of the boot sector by section 3 of the FAT specification: sectors of 512 bytes, clusters of 64 sectors,
      32 reserved sectors, two FATs of 261633 sectors, 2^28 sectors in all, the root directory in cluster 2, FSInfo in
      sector 1 and the backup boot sector in sector 6. */
  lemma BootFields()
    ensures var b := Boot();
            && b[11..13] == [0x00, 0x02] && b[13] == 64 && b[14..16] == [32, 0] && b[16] == 2
            && b[17..19] == [0, 0] && b[19..21] == [0, 0] && b[21] == 0xF0 && b[22..24] == [0, 0]
            && b[32..36] == [0x00, 0x00, 0x00, 0x10] && b[36..40] == [0x01, 0xFE, 0x03, 0x00]
            && b[44..48] == [2, 0, 0, 0] && b[48..50] == [1, 0] && b[50..52] == [6, 0]
            && b[66] == 0x29 && b[510] == 0x55 && b[511] == 0xAA
  {
    hide Boot, CommonFields, Fat32Fields, VolumeFields;
    BootParts();
    CommonBytes();
    Fat32Bytes();
  }

  /** The name of the file system. */
  lemma BootName()
    ensures Boot()[82..90] == [0x46, 0x41, 0x54, 0x33, 0x32, 0x20, 0x20, 0x20]
  {
    hide Boot, CommonFields, Fat32Fields, VolumeFields;
    BootParts();
    VolumeBytes();
    forall i | 82 <= i < 90 ensures Boot()[i] == VolumeFields()[15..][i - 82] {
      assert Boot()[i] == VolumeFields()[i - 67];
    }
  }

  lemma CommonBytes()
    ensures var b := CommonFields();
            && b[11] == 0x00 && b[12] == 0x02 && b[13] == 64 && b[14] == 32 && b[15] == 0 && b[16] == 2
            && b[17] == b[18] == b[19] == b[20] == 0 && b[21] == 0xF0 && b[22] == b[23] == 0
            && b[32] == b[33] == b[34] == 0 && b[35] == 0x10
  {
  }

  lemma Fat32Bytes()
    ensures var b := Fat32Fields();
            && b[0] == 0x01 && b[1] == 0xFE && b[2] == 0x03 && b[3] == 0x00
            && b[8] == 2 && b[9] == b[10] == b[11] == 0
            && b[12] == 1 && b[13] == 0 && b[14] == 6 && b[15] == 0 && b[30] == 0x29
  {
    VolumeNumbers();
  }

  lemma VolumeBytes()
    ensures VolumeFields()[15..] == [0x46, 0x41, 0x54, 0x33, 0x32, 0x20, 0x20, 0x20]
  {
  }

  /** The signatures of FSInfo, and no hints. */
  lemma FsInfoFields()
    ensures var b := FsInfo();
            && b[0..4] == [0x52, 0x52, 0x61, 0x41] && b[484..488] == [0x72, 0x72, 0x41, 0x61]
            && b[488..492] == [0xFF, 0xFF, 0xFF, 0xFF] && b[492..496] == [0xFF, 0xFF, 0xFF, 0xFF]
            && b[508..512] == [0x00, 0x00, 0x55, 0xAA]
  {
  }
}
