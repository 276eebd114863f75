/**
  A reader of "ustar Interchange Format" archives (IEEE Std 1003.1, the `pax` utility), written
  from the standard and not from the writer.
 */
module Ustar {
  import opened Bytes
  import opened Common
  import opened OctalFields

  const BLOCK: nat := 512
  const FILE: byte := 48
  const DIRECTORY: byte := 53
  const SLASH: byte := 47
  /** "ustar", NUL, and version "00". */
  const MAGIC: seq<byte> := [117, 115, 116, 97, 114, 0, 48, 48]

  datatype Entry = Entry(path: seq<byte>, mode: nat, mtime: int, directory: bool, data: seq<byte>)

  datatype Meta = Meta(path: seq<byte>, mode: nat, size: nat, mtime: nat, directory: bool)

  /** A character field ends at its first NUL, or at its full width. */
  function CString(field: seq<byte>): (r: seq<byte>)
    ensures |r| <= |field| && r == field[..|r|]
    ensures 0 !in r
    ensures |r| < |field| ==> field[|r|] == 0
  {
    if field == [] || field[0] == 0 then [] else [field[0]] + CString(field[1..])
  }

  /** The octet sum of a header, its own checksum field read as eight spaces. */
  function ChecksumOf(block: seq<byte>): nat
    requires |block| == BLOCK
  {
    Sum(Put(block, Repeat(SPACE, 8), 148))
  }

  function ParseHeader(block: seq<byte>): Option<Meta>
    requires |block| == BLOCK
  {
    var name, prefix := CString(block[0..100]), CString(block[345..500]);
    var mode, size, mtime := Number(block[100..108]), Number(block[124..136]), Number(block[136..148]);
    if Number(block[148..156]) != Some(ChecksumOf(block)) || block[257..265] != MAGIC
       || Number(block[108..116]).None? || Number(block[116..124]).None?
       || mode.None? || size.None? || mtime.None? || block[156] !in {FILE, DIRECTORY}
    then None
    else Some(Meta(if prefix == [] then name else prefix + [SLASH] + name,
                   mode.value, size.value, mtime.value, block[156] == DIRECTORY))
  }

  function Padding(size: nat): (r: nat)
    ensures r < BLOCK && (size + r) % BLOCK == 0
  {
    (BLOCK - size % BLOCK) % BLOCK
  }

  /** The entries up to the end marker of two zero blocks, and whatever follows the marker. */
  function Read(bytes: seq<byte>): Option<(seq<Entry>, seq<byte>)>
    decreases |bytes|
  {
    if |bytes| < BLOCK then None
    else if bytes[..BLOCK] == Zeros(BLOCK) then
      if |bytes| >= 2 * BLOCK && bytes[BLOCK..2 * BLOCK] == Zeros(BLOCK) then Some(([], bytes[2 * BLOCK..])) else None
    else match ParseHeader(bytes[..BLOCK])
      case None => None
      case Some(meta) =>
        var size := if meta.directory then 0 else meta.size;
        if |bytes| < BLOCK + size + Padding(size) then None
        else match Read(bytes[BLOCK + size + Padding(size)..])
          case None => None
          case Some((rest, after)) =>
            var data := bytes[BLOCK..BLOCK + size];
            Some(([Entry(meta.path, meta.mode, meta.mtime, meta.directory, data)] + rest, after))
  }
}
