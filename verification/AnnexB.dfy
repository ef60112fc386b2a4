/** Splitting an Annex-B byte stream (section B.1 of ITU-T H.264) into access units. */
module AnnexB {

  import opened Bytes

  datatype Codec = H264 | H265 | Mjpeg

  /** A start code begins at i: 00 00 01 or 00 00 00 01. */
  predicate StartsAt(data: seq<Byte>, i: nat) {
    i + 3 <= |data| && data[i] == 0 && data[i + 1] == 0
    && (data[i + 2] == 1 || (i + 4 <= |data| && data[i + 2] == 0 && data[i + 3] == 1))
  }

  /** findStartCode: the first start code at or after `from`, or the end of the data. */
  function FindStart(data: seq<Byte>, from: nat): (k: nat)
    requires from <= |data|
    ensures from <= k <= |data| && (k < |data| ==> StartsAt(data, k))
    decreases |data| - from
  {
    if from + 3 > |data| then |data| else if StartsAt(data, from) then from else FindStart(data, from + 1)
  }

  /** No start code is skipped. */
  lemma {:induction false} FindStartSkipsNothing(data: seq<Byte>, from: nat)
    requires from <= |data|
    ensures forall j: nat | from <= j < FindStart(data, from) :: !StartsAt(data, j)
    decreases |data| - from
  {
    if from + 3 <= |data| && !StartsAt(data, from) {
      FindStartSkipsNothing(data, from + 1);
    }
  }

  function StartLength(data: seq<Byte>, pos: nat): (n: nat)
    ensures StartsAt(data, pos) ==> pos + n <= |data|
    ensures 3 <= n <= 4
  {
    if pos + 4 <= |data| && data[pos] == 0 && data[pos + 1] == 0 && data[pos + 2] == 0 && data[pos + 3] == 1
    then 4
    else 3
  }

  /** The NAL unit type in the first header byte; -1 if the header is missing. */
  function NalType(codec: Codec, data: seq<Byte>, start: nat): int {
    var header := start + StartLength(data, start);
    if header >= |data| then -1
    else match codec
      case H264 => data[header] % 32
      case H265 => data[header] / 2 % 64
      case Mjpeg => -1
  }

  predicate IsVideo(codec: Codec, nalType: int) {
    match codec
    case H264 => nalType == 1 || nalType == 5
    case H265 => 0 <= nalType <= 31
    case Mjpeg => false
  }

  predicate VideoAt(codec: Codec, data: seq<Byte>, start: nat) {
    IsVideo(codec, NalType(codec, data, start))
  }

  /** The start of the NAL unit after the one at `nal`. */
  function NextNal(data: seq<Byte>, nal: nat): (k: nat)
    requires StartsAt(data, nal)
    ensures nal < k <= |data| && (k < |data| ==> StartsAt(data, k))
  {
    FindStart(data, nal + StartLength(data, nal))
  }

  /** `nal` is where a NAL unit starts, or the end. */
  predicate AtNal(data: seq<Byte>, nal: nat) {
    nal <= |data| && (nal < |data| ==> StartsAt(data, nal))
  }

  datatype Bounds = Bounds(from: nat, to: nat)

  /** The splitting loop from the NAL unit at `nal` on, with the current unit starting at `unitStart` (the end of the
      data: none yet): the bounds of the units it will still put out. */
  function SplitFrom(codec: Codec, data: seq<Byte>, nal: nat, unitStart: nat, hasVideo: bool): (units: seq<Bounds>)
    requires AtNal(data, nal) && (unitStart == |data| || unitStart < nal)
    ensures forall i | 0 <= i < |units| :: units[i].from <= units[i].to <= |data|
    decreases |data| - nal
  {
    if nal == |data| then
      if unitStart < |data| then [Bounds(unitStart, |data|)] else []
    else
      var next, video := NextNal(data, nal), VideoAt(codec, data, nal);
      if unitStart == |data| then SplitFrom(codec, data, next, nal, video)
      else if video && hasVideo then [Bounds(unitStart, nal)] + SplitFrom(codec, data, next, nal, true)
      else SplitFrom(codec, data, next, unitStart, hasVideo || video)
  }

  function Split(codec: Codec, data: seq<Byte>): seq<Bounds> {
    SplitFrom(codec, data, FindStart(data, 0), |data|, false)
  }

  /** Video NAL units from `nal` on that start inside [from, to). */
  function VideosIn(codec: Codec, data: seq<Byte>, nal: nat, from: nat, to: nat): nat
    requires AtNal(data, nal)
    decreases |data| - nal
  {
    if nal == |data| then 0
    else
      var here := if VideoAt(codec, data, nal) && from <= nal < to then 1 else 0;
      here + VideosIn(codec, data, NextNal(data, nal), from, to)
  }

  // ---------------------------------------------------------------- what the units are

  /** Consecutive non-empty stretches from `start` to `end`. */
  predicate Tiles(units: seq<Bounds>, start: nat, end: nat) {
    && units != [] && units[0].from == start && units[|units| - 1].to == end
    && (forall i | 0 <= i < |units| :: units[i].from < units[i].to <= end)
    && (forall i | 0 <= i < |units| - 1 :: units[i].to == units[i + 1].from)
  }

  /** Units put out while the scan is at `nal`: they tile the rest, none ends before `nal`, each begins with a start
      code, and every one but the first begins with a video NAL unit. */
  predicate UnitsFrom(codec: Codec, data: seq<Byte>, units: seq<Bounds>, nal: nat, unitStart: nat) {
    && Tiles(units, unitStart, |data|)
    && (forall i | 0 <= i < |units| :: units[i].to >= nal && StartsAt(data, units[i].from))
    && (forall i | 1 <= i < |units| :: units[i].from >= nal && VideoAt(codec, data, units[i].from))
  }

  lemma UnitsPrepend(codec: Codec, data: seq<Byte>, rest: seq<Bounds>, nal: nat, next: nat, unitStart: nat)
    requires unitStart < nal < next && nal < |data| && StartsAt(data, unitStart) && VideoAt(codec, data, nal)
    requires UnitsFrom(codec, data, rest, next, nal)
    ensures UnitsFrom(codec, data, [Bounds(unitStart, nal)] + rest, nal, unitStart)
  {
    var all := [Bounds(unitStart, nal)] + rest;
    assert forall i | 1 <= i < |all| :: all[i] == rest[i - 1];
    forall i | 0 <= i < |all| - 1 ensures all[i].to == all[i + 1].from {
      if i > 0 {
        assert all[i] == rest[i - 1] && all[i + 1] == rest[i];
      }
    }
  }

  lemma {:induction false} SplitTiles(codec: Codec, data: seq<Byte>, nal: nat, unitStart: nat, hasVideo: bool)
    requires AtNal(data, nal) && unitStart < nal && StartsAt(data, unitStart)
    ensures UnitsFrom(codec, data, SplitFrom(codec, data, nal, unitStart, hasVideo), nal, unitStart)
    decreases |data| - nal
  {
    if nal < |data| {
      var next, video := NextNal(data, nal), VideoAt(codec, data, nal);
      if video && hasVideo {
        SplitTiles(codec, data, next, nal, true);
        UnitsPrepend(codec, data, SplitFrom(codec, data, next, nal, true), nal, next, unitStart);
      } else {
        SplitTiles(codec, data, next, unitStart, hasVideo || video);
      }
    }
  }

  lemma {:induction false} NoVideosBefore(codec: Codec, data: seq<Byte>, nal: nat, from: nat, to: nat)
    requires AtNal(data, nal) && to <= nal
    ensures VideosIn(codec, data, nal, from, to) == 0
    decreases |data| - nal
  {
    if nal < |data| {
      NoVideosBefore(codec, data, NextNal(data, nal), from, to);
    }
  }

  /** A stretch that ends after `nal` counts the NAL unit at `nal` exactly when that is a video one inside it. */
  lemma VideosStep(codec: Codec, data: seq<Byte>, nal: nat, u: Bounds)
    requires AtNal(data, nal) && nal < |data| && nal < u.to
    ensures VideosIn(codec, data, nal, u.from, u.to)
         == (if VideoAt(codec, data, nal) && u.from <= nal then 1 else 0)
            + VideosIn(codec, data, NextNal(data, nal), u.from, u.to)
  {
  }

  /** Video NAL units of unit k that start at `nal` or later, plus the one the current unit already contains. */
  function Videos(codec: Codec, data: seq<Byte>, nal: nat, units: seq<Bounds>, hasVideo: bool, k: nat): nat
    requires AtNal(data, nal) && k < |units|
  {
    (if k == 0 && hasVideo then 1 else 0) + VideosIn(codec, data, nal, units[k].from, units[k].to)
  }

  /** Where unit k lies relative to the scan. */
  lemma UnitPosition(codec: Codec, data: seq<Byte>, nal: nat, unitStart: nat, hasVideo: bool, k: nat)
    requires AtNal(data, nal) && unitStart < nal && StartsAt(data, unitStart)
    requires k < |SplitFrom(codec, data, nal, unitStart, hasVideo)|
    ensures var unit := SplitFrom(codec, data, nal, unitStart, hasVideo)[k];
            unit.to >= nal && (if k == 0 then unit.from == unitStart else unit.from >= nal)
  {
    SplitTiles(codec, data, nal, unitStart, hasVideo);
  }

  /** The scan passes a NAL unit that ends no unit. */
  lemma VideosKept(codec: Codec, data: seq<Byte>, nal: nat, units: seq<Bounds>, hasVideo: bool, k: nat)
    requires AtNal(data, nal) && nal < |data| && k < |units| && units[k].to > nal
    requires if k == 0 then units[k].from <= nal else units[k].from > nal
    requires !(VideoAt(codec, data, nal) && hasVideo)
    ensures Videos(codec, data, nal, units, hasVideo, k)
         == Videos(codec, data, NextNal(data, nal), units, hasVideo || VideoAt(codec, data, nal), k)
  {
    VideosStep(codec, data, nal, units[k]);
  }

  /** The scan passes a video NAL unit that begins a new unit. */
  lemma VideosCut(codec: Codec, data: seq<Byte>, nal: nat, rest: seq<Bounds>, k: nat)
    requires AtNal(data, nal) && nal < |data| && k < |rest| && rest[k].to > nal && VideoAt(codec, data, nal)
    requires if k == 0 then rest[k].from == nal else rest[k].from > nal
    ensures VideosIn(codec, data, nal, rest[k].from, rest[k].to)
            == Videos(codec, data, NextNal(data, nal), rest, true, k)
  {
    VideosStep(codec, data, nal, rest[k]);
  }

  /** Every unit holds one video NAL unit. */
  lemma {:induction false} OneVideoEach(codec: Codec, data: seq<Byte>, nal: nat, unitStart: nat, hasVideo: bool, k: nat)
    requires AtNal(data, nal) && unitStart < nal && StartsAt(data, unitStart)
    requires hasVideo || VideosIn(codec, data, nal, 0, |data|) > 0
    requires k < |SplitFrom(codec, data, nal, unitStart, hasVideo)|
    ensures Videos(codec, data, nal, SplitFrom(codec, data, nal, unitStart, hasVideo), hasVideo, k) == 1
    decreases |data| - nal, 1
  {
    if nal < |data| {
      if VideoAt(codec, data, nal) && hasVideo {
        OneVideoAfterCut(codec, data, nal, unitStart, k);
      } else {
        var video := VideoAt(codec, data, nal);
        UnitPosition(codec, data, NextNal(data, nal), unitStart, hasVideo || video, k);
        OneVideoEach(codec, data, NextNal(data, nal), unitStart, hasVideo || video, k);
        var later := SplitFrom(codec, data, NextNal(data, nal), unitStart, hasVideo || video);
        VideosKept(codec, data, nal, later, hasVideo, k);
      }
    }
  }

  lemma {:induction false} OneVideoAfterCut(codec: Codec, data: seq<Byte>, nal: nat, unitStart: nat, k: nat)
    requires AtNal(data, nal) && nal < |data| && unitStart < nal && StartsAt(data, unitStart)
             && VideoAt(codec, data, nal)
    requires k < |SplitFrom(codec, data, nal, unitStart, true)|
    ensures Videos(codec, data, nal, SplitFrom(codec, data, nal, unitStart, true), true, k) == 1
    decreases |data| - nal, 0
  {
    if k == 0 {
      NoVideosBefore(codec, data, nal, unitStart, nal);
    } else {
      UnitPosition(codec, data, NextNal(data, nal), nal, true, k - 1);
      OneVideoEach(codec, data, NextNal(data, nal), nal, true, k - 1);
      VideosCut(codec, data, nal, SplitFrom(codec, data, NextNal(data, nal), nal, true), k - 1);
    }
  }

  lemma {:induction false} UnitCount(codec: Codec, data: seq<Byte>, nal: nat, unitStart: nat, hasVideo: bool)
    requires AtNal(data, nal) && unitStart < nal && StartsAt(data, unitStart)
    ensures var videos := VideosIn(codec, data, nal, 0, |data|) + (if hasVideo then 1 else 0);
            |SplitFrom(codec, data, nal, unitStart, hasVideo)| == if videos > 1 then videos else 1
    decreases |data| - nal
  {
    if nal < |data| {
      var next, video := NextNal(data, nal), VideoAt(codec, data, nal);
      UnitCount(codec, data, next, if video && hasVideo then nal else unitStart, hasVideo || video);
    }
  }

  /** Main result. Without a start code there are no units. Otherwise the units tile the data from its first start
      code to its end, each begins with a start code, every one but the first begins with a video NAL unit, there
      are max(1, v) of them for v video NAL units, and if v >= 1 each holds exactly one of those. */
  lemma SplitIsExact(codec: Codec, data: seq<Byte>)
    ensures var first, units := FindStart(data, 0), Split(codec, data);
            var videos := VideosIn(codec, data, first, 0, |data|);
            && (forall j: nat | j < first :: !StartsAt(data, j))
            && (first == |data| <==> units == [])
            && (first < |data| ==>
                  && Tiles(units, first, |data|)
                  && (forall i | 0 <= i < |units| :: StartsAt(data, units[i].from))
                  && (forall i | 1 <= i < |units| :: VideoAt(codec, data, units[i].from))
                  && |units| == (if videos > 1 then videos else 1)
                  && (videos >= 1 ==> forall i | 0 <= i < |units| ::
                        VideosIn(codec, data, first, units[i].from, units[i].to) == 1))
  {
    var first, units := FindStart(data, 0), Split(codec, data);
    FindStartSkipsNothing(data, 0);
    if first < |data| {
      var next, video := NextNal(data, first), VideoAt(codec, data, first);
      SplitTiles(codec, data, next, first, video);
      UnitCount(codec, data, next, first, video);
      if VideosIn(codec, data, first, 0, |data|) >= 1 {
        forall i | 0 <= i < |units| ensures VideosIn(codec, data, first, units[i].from, units[i].to) == 1 {
          OneVideoEach(codec, data, next, first, video, i);
        }
      }
    }
  }

  // ---------------------------------------------------------------- NAL units by position, without scanning

  predicate Code3(data: seq<Byte>, i: nat) {
    i + 3 <= |data| && data[i..i + 3] == [0, 0, 1]
  }

  predicate Code4(data: seq<Byte>, i: nat) {
    i + 4 <= |data| && data[i..i + 4] == [0, 0, 0, 1]
  }

  /** A NAL unit begins at i: a start code of four bytes, or one of three that is not the end of one of four. */
  predicate NalBegins(data: seq<Byte>, i: nat) {
    Code4(data, i) || (Code3(data, i) && !(i > 0 && Code4(data, i - 1)))
  }

  /** Its header byte exists and has a slice type: 1 or 5 in the low five bits for H.264, 0 to 31 in bits 1 to 6 for
      H.265. */
  predicate SliceAt(codec: Codec, data: seq<Byte>, i: nat) {
    var header := if Code4(data, i) then i + 4 else i + 3;
    header < |data|
    && match codec
       case H264 => exists high :: 0 <= high < 8 && (data[header] == 32 * high + 1 || data[header] == 32 * high + 5)
       case H265 => 0 <= data[header] < 64 || 128 <= data[header] < 192
       case Mjpeg => false
  }

  /** Video NAL units that begin in [from, to). */
  function VideoCount(codec: Codec, data: seq<Byte>, from: nat, to: nat): nat
    decreases to - from
  {
    if from >= to then 0
    else (if NalBegins(data, from) && SliceAt(codec, data, from) then 1 else 0) + VideoCount(codec, data, from + 1, to)
  }

  lemma StartIsACode(data: seq<Byte>, i: nat)
    ensures StartsAt(data, i) <==> Code3(data, i) || Code4(data, i)
    ensures StartsAt(data, i) ==> StartLength(data, i) == if Code4(data, i) then 4 else 3
  {
    if i + 3 <= |data| {
      assert data[i..i + 3] == [data[i], data[i + 1], data[i + 2]];
    }
    if i + 4 <= |data| {
      assert data[i..i + 4] == [data[i], data[i + 1], data[i + 2], data[i + 3]];
    }
  }

  lemma HeaderBits(b: Byte)
    ensures b % 32 == 1 || b % 32 == 5 <==> exists high :: 0 <= high < 8 && (b == 32 * high + 1 || b == 32 * high + 5)
    ensures b / 2 % 64 <= 31 <==> 0 <= b < 64 || 128 <= b < 192
  {
    var high: int := b / 32;
    assert b == 32 * high + b % 32 && 0 <= high < 8;
  }

  /** What the scan takes for a video NAL unit is one. */
  lemma VideoIsASlice(codec: Codec, data: seq<Byte>, i: nat)
    requires StartsAt(data, i)
    ensures VideoAt(codec, data, i) <==> SliceAt(codec, data, i)
  {
    StartIsACode(data, i);
    var header := i + StartLength(data, i);
    if header < |data| {
      HeaderBits(data[header]);
    }
  }

  /** No NAL unit begins inside a start code, and none is missed behind it. */
  lemma NextNalBegins(data: seq<Byte>, nal: nat)
    requires NalBegins(data, nal) && StartsAt(data, nal)
    ensures forall j: nat | nal < j < NextNal(data, nal) :: !NalBegins(data, j)
    ensures NextNal(data, nal) < |data| ==> NalBegins(data, NextNal(data, nal))
  {
    StartIsACode(data, nal);
    var behind, next := nal + StartLength(data, nal), NextNal(data, nal);
    FindStartSkipsNothing(data, behind);
    forall j: nat | nal < j < next ensures !NalBegins(data, j) {
      StartIsACode(data, j);
    }
    if next < |data| {
      StartIsACode(data, next);
      StartIsACode(data, next - 1);
    }
  }

  lemma FirstNalBegins(data: seq<Byte>)
    ensures var first := FindStart(data, 0);
            (forall j: nat | j < first :: !NalBegins(data, j)) && (first < |data| ==> NalBegins(data, first))
  {
    FindStartSkipsNothing(data, 0);
    var first := FindStart(data, 0);
    forall j: nat | j < first ensures !NalBegins(data, j) {
      StartIsACode(data, j);
    }
    StartIsACode(data, first);
    if first > 0 {
      StartIsACode(data, first - 1);
    }
  }

  lemma {:induction false} CountSkips(codec: Codec, data: seq<Byte>, from: nat, mid: nat, to: nat)
    requires from <= mid && forall j: nat | from <= j < mid :: !NalBegins(data, j)
    ensures VideoCount(codec, data, from, to) == VideoCount(codec, data, mid, to)
    decreases mid - from
  {
    if from < mid {
      CountSkips(codec, data, from + 1, mid, to);
    }
  }

  /** Counting along the scan is counting by position. */
  lemma {:induction false} VideosByPosition(codec: Codec, data: seq<Byte>, nal: nat, from: nat, to: nat)
    requires AtNal(data, nal) && (nal < |data| ==> NalBegins(data, nal)) && to <= |data|
    ensures VideosIn(codec, data, nal, from, to) == VideoCount(codec, data, if from > nal then from else nal, to)
    decreases |data| - nal
  {
    if nal < |data| {
      var next := NextNal(data, nal);
      NextNalBegins(data, nal);
      VideosByPosition(codec, data, next, from, to);
      VideoIsASlice(codec, data, nal);
      if from <= nal {
        CountSkips(codec, data, nal + 1, next, to);
      } else if from < next {
        CountSkips(codec, data, from, next, to);
      }
    }
  }

  /** The main result by position: the units tile everything from the first NAL unit on, every one but the first begins
      with a video NAL unit, there are max(1, v) of them for v video NAL units, and if there is one each unit holds
      exactly one. */
  lemma UnitsByPosition(codec: Codec, data: seq<Byte>)
    ensures var first, units, videos := FindStart(data, 0), Split(codec, data), VideoCount(codec, data, 0, |data|);
            && (forall j: nat | j < first :: !NalBegins(data, j))
            && (if first == |data| then units == []
                else
                  && NalBegins(data, first) && Tiles(units, first, |data|)
                  && (forall i | 1 <= i < |units| :: SliceAt(codec, data, units[i].from))
                  && |units| == (if videos > 1 then videos else 1)
                  && (videos >= 1 ==> forall i | 0 <= i < |units| ::
                        VideoCount(codec, data, units[i].from, units[i].to) == 1))
  {
    var first, units := FindStart(data, 0), Split(codec, data);
    SplitIsExact(codec, data);
    FirstNalBegins(data);
    if first < |data| {
      CountSkips(codec, data, 0, first, |data|);
      VideosByPosition(codec, data, first, 0, |data|);
      forall i | 0 <= i < |units|
        ensures VideosIn(codec, data, first, units[i].from, units[i].to)
             == VideoCount(codec, data, units[i].from, units[i].to)
      {
        UnitsLieBehind(units, first, |data|, i);
        VideosByPosition(codec, data, first, units[i].from, units[i].to);
      }
      forall i | 1 <= i < |units| ensures SliceAt(codec, data, units[i].from) {
        VideoIsASlice(codec, data, units[i].from);
      }
    }
  }

  lemma {:induction false} UnitsLieBehind(units: seq<Bounds>, start: nat, end: nat, i: nat)
    requires Tiles(units, start, end) && i < |units|
    ensures start <= units[i].from
    decreases i
  {
    if i > 0 {
      UnitsLieBehind(units, start, end, i - 1);
      assert units[i - 1].to == units[i].from;
    }
  }

  function Slices(data: seq<Byte>, units: seq<Bounds>): seq<seq<Byte>>
    requires forall i | 0 <= i < |units| :: units[i].from <= units[i].to <= |data|
  {
    seq(|units|, i requires 0 <= i < |units| => data[units[i].from..units[i].to])
  }

  function Concat(pieces: seq<seq<Byte>>): seq<Byte>
    decreases |pieces|
  {
    if pieces == [] then [] else pieces[0] + Concat(pieces[1..])
  }

  lemma SlicesJoin(data: seq<Byte>, from: nat, mid: nat, to: nat)
    requires from <= mid <= to <= |data|
    ensures data[from..to] == data[from..mid] + data[mid..to]
  {
  }

  /** Tiles put together again are the stretch they tile. */
  lemma {:induction false} TilesConcat(data: seq<Byte>, units: seq<Bounds>, start: nat, end: nat)
    requires end <= |data| && Tiles(units, start, end)
    ensures Concat(Slices(data, units)) == data[start..end]
    decreases |units|
  {
    var pieces := Slices(data, units);
    assert pieces[1..] == Slices(data, units[1..]);
    if |units| == 1 {
      assert Concat(pieces) == pieces[0] + Concat(pieces[1..]);
    } else {
      TilesConcat(data, units[1..], units[0].to, end);
      SlicesJoin(data, start, units[0].to, end);
    }
  }

  /** The byte strings the splitting loop will still put out. */
  function Pending(codec: Codec, data: seq<Byte>, nal: nat, unitStart: nat, hasVideo: bool): seq<seq<Byte>>
    requires AtNal(data, nal) && (unitStart == |data| || unitStart < nal)
  {
    Slices(data, SplitFrom(codec, data, nal, unitStart, hasVideo))
  }

  /** One iteration of the loop puts out nothing, or the unit that ends here. */
  lemma PendingStep(codec: Codec, data: seq<Byte>, nal: nat, unitStart: nat, hasVideo: bool)
    requires AtNal(data, nal) && nal < |data| && (unitStart == |data| || unitStart < nal)
    ensures var next, video := NextNal(data, nal), VideoAt(codec, data, nal);
            Pending(codec, data, nal, unitStart, hasVideo)
            == if unitStart == |data| then Pending(codec, data, next, nal, video)
               else if video && hasVideo then [data[unitStart..nal]] + Pending(codec, data, next, nal, true)
               else Pending(codec, data, next, unitStart, hasVideo || video)
  {
    if unitStart != |data| && VideoAt(codec, data, nal) && hasVideo {
      var rest := SplitFrom(codec, data, NextNal(data, nal), nal, true);
      assert Slices(data, [Bounds(unitStart, nal)] + rest) == [data[unitStart..nal]] + Slices(data, rest);
    }
  }

  lemma PendingAtEnd(codec: Codec, data: seq<Byte>, unitStart: nat, hasVideo: bool)
    requires unitStart <= |data|
    ensures Pending(codec, data, |data|, unitStart, hasVideo) == if unitStart < |data| then [data[unitStart..]] else []
  {
    if unitStart < |data| {
      assert data[unitStart..|data|] == data[unitStart..];
    }
  }

  lemma Regroup(units: seq<seq<Byte>>, unit: seq<Byte>, rest: seq<seq<Byte>>)
    ensures (units + [unit]) + rest == units + ([unit] + rest)
  {
  }

  // ---------------------------------------------------------------- the loops

  method FindStartCode(data: seq<Byte>, from: nat) returns (k: nat)
    requires from <= |data|
    ensures k == FindStart(data, from)
  {
    var i := from;
    while i + 3 <= |data|
      invariant from <= i <= |data|
      invariant FindStart(data, i) == FindStart(data, from)
    {
      if data[i] == 0 && data[i + 1] == 0 {
        if data[i + 2] == 1 {
          return i;
        }
        if i + 4 <= |data| && data[i + 2] == 0 && data[i + 3] == 1 {
          return i;
        }
      }
      i := i + 1;
    }
    return |data|;
  }

  /** The units are the slices of the data at the bounds of Split. */
  method SplitAnnexBAccessUnits(codec: Codec, data: seq<Byte>) returns (units: seq<seq<Byte>>)
    ensures units == Slices(data, Split(codec, data))
  {
    units := [];
    var unitStart: nat := |data|;
    var unitHasVideo := false;
    var nalStart := FindStartCode(data, 0);
    while nalStart < |data|
      invariant AtNal(data, nalStart)
      invariant unitStart == |data| || unitStart < nalStart
      invariant unitStart == |data| ==> !unitHasVideo
      invariant units + Pending(codec, data, nalStart, unitStart, unitHasVideo) == Slices(data, Split(codec, data))
      decreases |data| - nalStart
    {
      PendingStep(codec, data, nalStart, unitStart, unitHasVideo);
      var nextNal := FindStartCode(data, nalStart + StartLength(data, nalStart));
      assert nextNal == NextNal(data, nalStart);
      var videoNal := VideoAt(codec, data, nalStart);
      if unitStart == |data| {
        unitStart := nalStart;
      } else if videoNal && unitHasVideo {
        Regroup(units, data[unitStart..nalStart], Pending(codec, data, nextNal, nalStart, true));
        units := units + [data[unitStart..nalStart]];
        unitStart := nalStart;
        unitHasVideo := false;
      }
      unitHasVideo := unitHasVideo || videoNal;
      nalStart := nextNal;
    }
    PendingAtEnd(codec, data, unitStart, unitHasVideo);
    if unitStart < |data| {
      units := units + [data[unitStart..]];
    }
  }

  /** Nothing is lost: the units put together are everything from the first start code on. */
  lemma UnitsCoverTheStream(codec: Codec, data: seq<Byte>)
    ensures Concat(Slices(data, Split(codec, data))) == data[FindStart(data, 0)..]
  {
    SplitIsExact(codec, data);
    var first := FindStart(data, 0);
    if first < |data| {
      TilesConcat(data, Split(codec, data), first, |data|);
      assert data[first..|data|] == data[first..];
    }
  }
}
