/** Directory entries kept in memory (struct EntryMetaData and struct DirEntry of dbfat.h). */
module Entries {
  import opened Words

  type Name = seq<u16>
  type Rev = seq<u8>

  datatype EntryMetaData = EntryMetaData(
    size: u32,
    wrtDate: u16,
    wrtTime: u16,
    isDir: bool,
    nameChecksum: u8,
    shortName: seq<u8>,
    name: Name,
    rev: Rev)

  class DirEntry {
    var parent: DirEntry?
    var child: DirEntry?
    var next: DirEntry?
    var firstCluster: u32
    var metadata: EntryMetaData

    constructor (metadata: EntryMetaData, firstCluster: u32)
      ensures parent == null && child == null && next == null
      ensures this.metadata == metadata && this.firstCluster == firstCluster
    {
      this.parent, this.child, this.next := null, null, null;
      this.metadata, this.firstCluster := metadata, firstCluster;
    }
  }

  /** The `i`-th entry of a linked list, null past its end. */
  ghost function At(kids: seq<DirEntry>, i: nat): DirEntry? {
    if i < |kids| then kids[i] else null
  }
}
