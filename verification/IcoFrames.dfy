/** Picking the largest PNG frame out of an icon file. */
module IcoFrames {
  import opened Wrappers
  import opened WireCodec

  const PNG_MAGIC: seq<byte> := [0x89, 0x50, 0x4E, 0x47, 0x0D, 0x0A, 0x1A, 0x0A]

  function LittleEndian(b: seq<byte>): nat {
    if b == [] then 0 else b[0] + 256 * LittleEndian(b[1..])
  }

  /** How many directory entries the file announces. */
  function Announced(ico: seq<byte>): nat
    requires |ico| >= 6
  {
    LittleEndian(ico[4..6])
  }

  /** The directory entry is inside the file. */
  predicate HasEntry(ico: seq<byte>, i: nat) {
    6 + i * 16 + 16 <= |ico|
  }

  function Side(b: byte): nat {
    if b == 0 then 256 else b
  }

  function Area(ico: seq<byte>, i: nat): nat
    requires HasEntry(ico, i)
  {
    Side(ico[6 + i * 16]) * Side(ico[6 + i * 16 + 1])
  }

  /** The bytes of a frame, if they are inside the file and are a PNG image. */
  function PngFrame(ico: seq<byte>, i: nat): Option<seq<byte>>
    requires HasEntry(ico, i)
  {
    var base := 6 + i * 16;
    var size, offset := LittleEndian(ico[base + 8..base + 12]), LittleEndian(ico[base + 12..base + 16]);
    if offset + size > |ico| || !(PNG_MAGIC <= ico[offset..offset + size]) then None
    else Some(ico[offset..offset + size])
  }

  /** Entry `i` is announced, inside the file and a PNG image. */
  predicate IsCandidate(ico: seq<byte>, i: nat)
    requires |ico| >= 6
  {
    i < Announced(ico) && HasEntry(ico, i) && PngFrame(ico, i).Some?
  }

  lemma AreaIsPositive(ico: seq<byte>, i: nat)
    requires HasEntry(ico, i)
    ensures Area(ico, i) > 0
  {
    var w, h := Side(ico[6 + i * 16]), Side(ico[6 + i * 16 + 1]);
    assert w * h >= w * 1;
  }

  /** Among the first `n` entries, `at` is the first of the candidates with the largest area; none without `best`. */
  predicate IsBest(ico: seq<byte>, n: nat, best: Option<seq<byte>>, at: nat, area: nat)
    requires |ico| >= 6
  {
    if best.None? then
      area == 0 && forall i: nat :: i < n ==> !IsCandidate(ico, i)
    else
      && at < n && IsCandidate(ico, at) && best == PngFrame(ico, at) && area == Area(ico, at)
      && (forall i: nat :: i < n && IsCandidate(ico, i) ==> Area(ico, i) <= area)
      && (forall i: nat :: i < at && IsCandidate(ico, i) ==> Area(ico, i) < area)
  }

  lemma NextEntry(ico: seq<byte>, n: nat, best: Option<seq<byte>>, at: nat, area: nat)
    requires |ico| >= 6 && IsBest(ico, n, best, at, area) && n < Announced(ico) && HasEntry(ico, n)
    ensures if PngFrame(ico, n).Some? && Area(ico, n) > area then IsBest(ico, n + 1, PngFrame(ico, n), n, Area(ico, n))
            else IsBest(ico, n + 1, best, at, area)
  {
    hide Area, PngFrame, Announced;
    AreaIsPositive(ico, n);
  }

  /** `extract_png_from_ico`: the first of the largest frames of the whole directory, as far as it is inside the file;
      none when the file has no PNG frame. */
  method ExtractPngFromIco(ico: seq<byte>) returns (best: Option<seq<byte>>, ghost at: nat, ghost area: nat)
    ensures |ico| < 6 ==> best.None?
    ensures |ico| >= 6 ==> forall n: nat :: n >= Announced(ico) ==> IsBest(ico, n, best, at, area)
  {
    at, area := 0, 0;
    if |ico| < 6 { return None, 0, 0; }
    best := None;
    var count := Announced(ico);
    var bestArea: nat, i: nat := 0, 0;
    while i < count && HasEntry(ico, i)
      invariant i <= count && area == bestArea && IsBest(ico, i, best, at, bestArea)
    {
      NextEntry(ico, i, best, at, bestArea);
      var frame := PngFrame(ico, i);
      if frame.Some? && Area(ico, i) > bestArea {
        bestArea := Area(ico, i);
        best := frame;
        at, area := i, bestArea;
      }
      i := i + 1;
    }
    forall n: nat | n >= count ensures IsBest(ico, n, best, at, area) {
      NoMoreEntries(ico, i, n, best, at, bestArea);
    }
  }

  lemma NoMoreEntries(ico: seq<byte>, i: nat, n: nat, best: Option<seq<byte>>, at: nat, area: nat)
    requires |ico| >= 6 && IsBest(ico, i, best, at, area) && i <= n
    requires i >= Announced(ico) || !HasEntry(ico, i)
    ensures IsBest(ico, n, best, at, area)
  {
    hide Area, PngFrame, Announced;
    assert forall j: nat :: j >= i && HasEntry(ico, j) ==> HasEntry(ico, i);
  }
}
