/**
  Icon files as their format lays them out: a header of six bytes with the number of pictures, one
  directory entry of sixteen bytes for each, and the pictures themselves.
 */
module IcoFiles {
  import opened Wrappers
  import opened WireCodec
  import opened IcoFrames

  /** A picture of at most 256 by 256 points. */
  datatype Picture = Picture(width: nat, height: nat, data: seq<byte>)

  predicate IsPicture(p: Picture) {
    0 < p.width <= 256 && 0 < p.height <= 256
  }

  /** `n` in this many bytes, the lowest first. */
  function Little(n: nat, width: nat): (b: seq<byte>)
    ensures |b| == width
  {
    if width == 0 then [] else [n % 256] + Little(n / 256, width - 1)
  }

  lemma {:induction false} LittleReadsBack(n: nat, width: nat)
    requires n < Power(width)
    ensures LittleEndian(Little(n, width)) == n
  {
    if width > 0 {
      LittleReadsBack(n / 256, width - 1);
    }
  }

  function Power(width: nat): nat {
    if width == 0 then 1 else 256 * Power(width - 1)
  }

  /** A directory entry; 256 points are written as 0. */
  function Entry(p: Picture, offset: nat): (b: seq<byte>)
    ensures |b| == 16
  {
    [p.width % 256, p.height % 256, 0, 0, 1, 0, 32, 0] + Little(|p.data|, 4) + Little(offset, 4)
  }

  function Entries(pictures: seq<Picture>, offset: nat): (b: seq<byte>)
    ensures |b| == 16 * |pictures|
  {
    if pictures == [] then []
    else Entry(pictures[0], offset) + Entries(pictures[1..], offset + |pictures[0].data|)
  }

  function AllData(pictures: seq<Picture>): seq<byte> {
    if pictures == [] then [] else pictures[0].data + AllData(pictures[1..])
  }

  function IconFile(pictures: seq<Picture>): seq<byte> {
    [0, 0, 1, 0] + Little(|pictures|, 2) + Entries(pictures, 6 + 16 * |pictures|) + AllData(pictures)
  }

  /** The file can be written: every picture has its size, and every number fits its field. */
  predicate IsIcon(pictures: seq<Picture>) {
    && |pictures| < 65536 && |IconFile(pictures)| < 0x1_0000_0000
    && forall i :: 0 <= i < |pictures| ==> IsPicture(pictures[i])
  }

  /** Where the data of picture `i` starts. */
  function OffsetOf(pictures: seq<Picture>, i: nat): nat
    requires i <= |pictures|
  {
    6 + 16 * |pictures| + |AllData(pictures[..i])|
  }

  lemma {:induction false} EntryAt(pictures: seq<Picture>, offset: nat, i: nat)
    requires i < |pictures|
    ensures Entries(pictures, offset)[16 * i..16 * i + 16] == Entry(pictures[i], offset + |AllData(pictures[..i])|)
  {
    hide Entry;
    var first, rest := Entry(pictures[0], offset), Entries(pictures[1..], offset + |pictures[0].data|);
    if i == 0 {
      assert pictures[..0] == [] && (first + rest)[0..16] == first;
    } else {
      EntryAt(pictures[1..], offset + |pictures[0].data|, i - 1);
      assert pictures[..i][0] == pictures[0] && pictures[..i][1..] == pictures[1..][..i - 1];
      assert (first + rest)[16 * i..16 * i + 16] == rest[16 * (i - 1)..16 * (i - 1) + 16];
    }
  }

  lemma {:induction false} DataAt(pictures: seq<Picture>, i: nat)
    requires i < |pictures|
    ensures var at := |AllData(pictures[..i])|;
            && at + |pictures[i].data| <= |AllData(pictures)|
            && AllData(pictures)[at..at + |pictures[i].data|] == pictures[i].data
  {
    var first, rest := pictures[0].data, AllData(pictures[1..]);
    if i == 0 {
      assert pictures[..0] == [];
    } else {
      DataAt(pictures[1..], i - 1);
      assert pictures[..i][0] == pictures[0] && pictures[..i][1..] == pictures[1..][..i - 1];
      var at := |AllData(pictures[1..][..i - 1])|;
      assert (first + rest)[|first| + at..|first| + at + |pictures[i].data|] == rest[at..at + |pictures[i].data|];
    }
  }

  /** The parts of the file are where they should be. */
  lemma FileParts(pictures: seq<Picture>, i: nat)
    requires i < |pictures|
    ensures var ico, at, base := IconFile(pictures), OffsetOf(pictures, i), 6 + i * 16;
            && base + 16 <= |ico| && at + |pictures[i].data| <= |ico|
            && ico[4..6] == Little(|pictures|, 2) && ico[base..base + 16] == Entry(pictures[i], at)
            && ico[at..at + |pictures[i].data|] == pictures[i].data
  {
    hide Entry, Entries, AllData, Little;
    var n := |pictures|;
    var head: seq<byte>, entries, data := [0, 0, 1, 0] + Little(n, 2), Entries(pictures, 6 + 16 * n), AllData(pictures);
    var ico := head + entries + data;
    assert ico == IconFile(pictures);
    EntryAt(pictures, 6 + 16 * n, i);
    DataAt(pictures, i);
    assert ico[6 + 16 * i..6 + 16 * i + 16] == entries[16 * i..16 * i + 16];
    var at := |AllData(pictures[..i])|;
    assert ico[6 + 16 * n + at..6 + 16 * n + at + |pictures[i].data|] == data[at..at + |pictures[i].data|];
  }

  lemma EntryParts(p: Picture, offset: nat)
    ensures var e := Entry(p, offset);
            && e[0] == p.width % 256 && e[1] == p.height % 256
            && e[8..12] == Little(|p.data|, 4) && e[12..16] == Little(offset, 4)
  {
    hide Little;
  }

  /** A PNG image begins with its signature (section 5.2 of the PNG specification). */
  predicate IsPng(data: seq<byte>) {
    |data| >= 8 && data[0] == 137 && data[1] == 80 && data[2] == 78 && data[3] == 71 && data[4] == 13 && data[5] == 10
    && data[6] == 26 && data[7] == 10
  }

  lemma MagicIsPng(data: seq<byte>)
    ensures PNG_MAGIC <= data <==> IsPng(data)
  {
  }

  lemma SideIsRead(n: nat)
    requires 0 < n <= 256
    ensures Side(n % 256) == n
  {
  }

  /** Every picture is read back with its area, and its data if it is a PNG image. */
  lemma PictureReadsBack(pictures: seq<Picture>, i: nat)
    requires IsIcon(pictures) && i < |pictures|
    ensures var ico, p := IconFile(pictures), pictures[i];
            && |ico| >= 6 && Announced(ico) == |pictures| && HasEntry(ico, i)
            && Area(ico, i) == p.width * p.height
            && PngFrame(ico, i) == if IsPng(p.data) then Some(p.data) else None
  {
    hide Entry, IconFile, Little, LittleEndian, Side, IsPng, PNG_MAGIC, AllData;
    var ico, p, at, base := IconFile(pictures), pictures[i], OffsetOf(pictures, i), 6 + i * 16;
    FileParts(pictures, i);
    EntryParts(p, at);
    Powers();
    LittleReadsBack(|pictures|, 2);
    LittleReadsBack(|p.data|, 4);
    LittleReadsBack(at, 4);
    var entry := ico[base..base + 16];
    assert ico[base] == entry[0] && ico[base + 1] == entry[1];
    assert ico[base + 8..base + 12] == entry[8..12] && ico[base + 12..base + 16] == entry[12..16];
    SideIsRead(p.width);
    SideIsRead(p.height);
    MagicIsPng(p.data);
  }

  lemma Powers()
    ensures Power(2) == 65536 && Power(4) == 0x1_0000_0000
  {
    assert Power(3) == 256 * Power(2);
  }

  /** Out of an icon file comes the data of the first of the largest PNG pictures, and nothing only if there is none. */
  lemma LargestIsExtracted(pictures: seq<Picture>, best: Option<seq<byte>>, at: nat, area: nat)
    requires IsIcon(pictures) && pictures != []
    requires |IconFile(pictures)| >= 6 && IsBest(IconFile(pictures), |pictures|, best, at, area)
    ensures best == None <==> forall i :: 0 <= i < |pictures| ==> !IsPng(pictures[i].data)
    ensures best != None ==>
      && at < |pictures| && IsPng(pictures[at].data) && best == Some(pictures[at].data)
      && forall i :: 0 <= i < |pictures| && IsPng(pictures[i].data) ==>
           var mine, its := pictures[at].width * pictures[at].height, pictures[i].width * pictures[i].height;
           its <= mine && (i < at ==> its < mine)
  {
    hide IconFile, IsPng, Area, PngFrame, Announced;
    var ico := IconFile(pictures);
    forall i | 0 <= i < |pictures|
      ensures HasEntry(ico, i) && Area(ico, i) == pictures[i].width * pictures[i].height && Announced(ico) == |pictures|
      ensures PngFrame(ico, i) == if IsPng(pictures[i].data) then Some(pictures[i].data) else None
    {
      PictureReadsBack(pictures, i);
    }
    forall i | 0 <= i < |pictures| ensures IsCandidate(ico, i) <==> IsPng(pictures[i].data) {
    }
  }
}
