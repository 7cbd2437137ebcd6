/** One drain's memory: a lane per mapping, each collecting a run of changes under one shared
    byte budget, flushed in commit order. */
module CdcRuns {
  import opened Common
  import opened CdcStream

  /** One transaction's part of a run: how far it has come, what the slot must be held at to keep
      it, and the length of the body up to its end. */
  datatype End = End(last: Pos, hold: Option<Lsn>, len: nat)

  /** What a lane has collected: a stretch of its stream, all of one shape. */
  datatype Run = Run(cols: string, body: string, hold: Option<Lsn>, last: Pos, ends: seq<End>)

  /** What a stopped lane holds the slot at; `None` where it stands. */
  datatype Stop = Stop(hold: Option<Lsn>)

  datatype Lane = Lane(delivered: Option<Pos>, moved: bool, run: Option<Run>, stopped: Option<Stop>)

  // ---- pure helpers of the drain

  /** The furthest a run can go out while the slot is held at `hold`. */
  function Deliverable(ends: seq<End>, hold: Option<Lsn>): (r: Option<End>)
    ensures r.None? <==> ends == [] || hold.None? || ends[0].last.end > hold.value
    ensures r.Some? ==> exists x | 0 <= x < |ends| :: LastWithin(ends, hold.value, x) && r.value == ends[x]
  {
    if ends == [] || hold.None? || ends[0].last.end > hold.value then None
    else
      var rest := Deliverable(ends[1..], hold);
      if rest.None? then
        assert LastWithin(ends, hold.value, 0);
        Some(ends[0])
      else
        ghost var x :| 0 <= x < |ends[1..]| && LastWithin(ends[1..], hold.value, x) && rest.value == ends[1..][x];
        assert LastWithin(ends, hold.value, x + 1);
        rest
  }

  /** Transaction `x` and all before it end by `h`, and the next one does not. */
  ghost predicate LastWithin(ends: seq<End>, h: Lsn, x: nat) {
    && x < |ends|
    && (forall y | 0 <= y <= x :: ends[y].last.end <= h)
    && (x + 1 < |ends| ==> ends[x + 1].last.end > h)
  }

  /** The transactions kept when a run is cut after the one ending at `end`. */
  function Retained(ends: seq<End>, end: Lsn): seq<End> {
    if ends == [] then []
    else if ends[0].last.end <= end then [ends[0]] + Retained(ends[1..], end)
    else Retained(ends[1..], end)
  }

  lemma {:induction false} RetainedIsPrefix(ends: seq<End>, x: nat)
    requires x < |ends|
    requires forall a, b | 0 <= a < b < |ends| :: ends[a].last.end < ends[b].last.end
    ensures Retained(ends, ends[x].last.end) == ends[..x + 1]
  {
    if x == 0 {
      RetainedNone(ends[1..], ends[x].last.end);
    } else {
      RetainedIsPrefix(ends[1..], x - 1);
      assert ends[..x + 1] == [ends[0]] + ends[1..][..x];
    }
  }

  lemma {:induction false} RetainedNone(ends: seq<End>, end: Lsn)
    requires forall a | 0 <= a < |ends| :: ends[a].last.end > end
    ensures Retained(ends, end) == []
  {
    if ends != [] {
      RetainedNone(ends[1..], end);
    }
  }

  /** Where the slot may move: to `high`, unless a stopped lane holds it lower. */
  function AdvanceTarget(high: Option<Lsn>, holds: seq<Option<Lsn>>): (t: Option<Lsn>)
    ensures holds == [] ==> t == high
    ensures holds != [] ==> (t.None? <==> None in holds)
    ensures holds != [] && t.Some? ==> Some(t.value) in holds
                                       && forall h | h in holds :: h.Some? && t.value <= h.value
  {
    if holds == [] then high else Earliest(MAX_LSN, holds)
  }

  function Earliest(acc: Lsn, holds: seq<Option<Lsn>>): (t: Option<Lsn>)
    ensures t.None? <==> None in holds
    ensures t.Some? ==> t.value <= acc && forall h | h in holds :: h.Some? && t.value <= h.value
    ensures t.Some? ==> t.value == acc || Some(t.value) in holds
    ensures t.Some? && acc == MAX_LSN && holds != [] ==> Some(t.value) in holds
  {
    if holds == [] then Some(acc)
    else if holds[0].None? then None
    else Earliest(if acc < holds[0].value then acc else holds[0].value, holds[1..])
  }

  // ---- what a lane's memory means

  /** Every lane has been offered everything of the transactions ending by `h`. */
  ghost predicate ScannedTo(f: Feed, got: seq<nat>, h: Lsn)
    requires |got| == |f.items|
  {
    forall j, k | 0 <= j < |f.items| && 0 <= k < |f.items[j]| ::
      f.items[j][k].pos.end <= h ==> k < got[j]
  }

  /** Holding the slot at `hold` loses nothing of a lane that has handled its first `n` items. */
  ghost predicate HoldOK(f: Feed, got: seq<nat>, s: seq<Item>, hold: Option<Lsn>, n: nat)
    requires |got| == |f.items|
  {
    hold.Some? ==>
      && ScannedTo(f, got, hold.value)
      && forall k | 0 <= k < |s| :: s[k].pos.end <= hold.value ==> k < n
  }

  ghost function Cut(s: seq<Item>, e: End): nat {
    Upto(s, Some(e.last))
  }

  ghost function CutBefore(s: seq<Item>, ends: seq<End>, x: nat, lo: nat): nat
    requires x <= |ends|
  {
    if x == 0 then lo else Cut(s, ends[x - 1])
  }

  /** `ends[x]` closes the items `CutBefore(x)..Cut(x)` of the run `lo..hi`: one transaction. */
  ghost predicate EndOK(f: Feed, got: seq<nat>, s: seq<Item>, ends: seq<End>, x: nat, lo: nat, hi: nat)
    requires |got| == |f.items| && x < |ends|
  {
    var c := Cut(s, ends[x]);
    && CutBefore(s, ends, x, lo) < c <= hi <= |s|
    && lo < c
    && s[c - 1].pos == ends[x].last
    && s[CutBefore(s, ends, x, lo)].pos.end == ends[x].last.end
    && ends[x].len == |Body(s[lo..c])|
    && (c < hi ==> s[c].pos.end > ends[x].last.end)
    && (c == hi <==> x + 1 == |ends|)
    && HoldOK(f, got, s, ends[x].hold, CutBefore(s, ends, x, lo))
  }

  ghost predicate RunOK(f: Feed, got: seq<nat>, s: seq<Item>, run: Run, lo: nat, hi: nat)
    requires |got| == |f.items|
  {
    && lo < hi <= |s|
    && run.body == Body(s[lo..hi])
    && (forall k | lo <= k < hi :: s[k].cols == run.cols)
    && run.last == s[hi - 1].pos
    && HoldOK(f, got, s, run.hold, lo)
    && |run.ends| > 0
    && forall x | 0 <= x < |run.ends| :: EndOK(f, got, s, run.ends, x, lo, hi)
  }

  ghost predicate LaneOK(f: Feed, got: seq<nat>, i: nat, l: Lane)
    requires |got| == |f.items| && i < |f.items|
  {
    var s := f.items[i];
    var n := Upto(s, l.delivered);
    && (l.stopped.Some? ==> l.run.None? && HoldOK(f, got, s, l.stopped.value.hold, n))
    && (l.run.Some? ==> RunOK(f, got, s, l.run.value, n, got[i]))
    && (l.run.None? && l.stopped.None? ==> got[i] <= n)
  }

  /** What the scan owes the summaries: when one is offered its transaction is scanned. */
  ghost predicate SummaryScanned(f: Feed, got: seq<nat>)
    requires |got| == |f.items| == |f.summary|
  {
    forall i, k | 0 <= i < |got| && f.summary[i] && 0 <= k < got[i] <= |f.items[i]| ::
      TablesScanned(f, got, f.items[i][k].pos.end)
  }

  ghost predicate TablesScanned(f: Feed, got: seq<nat>, end: Lsn)
    requires |got| == |f.items| == |f.summary|
  {
    forall j, k | 0 <= j < |f.items| && !f.summary[j] && 0 <= k < |f.items[j]| ::
      f.items[j][k].pos.end <= end ==> k < got[j]
  }

  // ---- the shared byte budget

  function BodyLen(l: Lane): nat {
    if l.run.Some? then |l.run.value.body| else 0
  }

  ghost function Bodies(lanes: seq<Lane>): nat {
    if lanes == [] then 0 else Bodies(lanes[..|lanes| - 1]) + BodyLen(lanes[|lanes| - 1])
  }

  lemma {:induction false} BodiesUpdate(lanes: seq<Lane>, i: nat, l: Lane)
    requires i < |lanes|
    ensures Bodies(lanes[i := l]) + BodyLen(lanes[i]) == Bodies(lanes) + BodyLen(l)
  {
    var n := |lanes| - 1;
    if i < n {
      BodiesUpdate(lanes[..n], i, l);
      assert lanes[i := l][..n] == lanes[..n][i := l];
    } else {
      assert lanes[i := l][..n] == lanes[..n];
    }
  }

  /** While anything is buffered, some lane has a run. */
  lemma {:induction false} BufferedSomewhere(lanes: seq<Lane>)
    requires Bodies(lanes) > 0
    ensures exists i | 0 <= i < |lanes| :: BodyLen(lanes[i]) > 0
  {
    var n := |lanes| - 1;
    if BodyLen(lanes[n]) == 0 {
      BufferedSomewhere(lanes[..n]);
      var i :| 0 <= i < |lanes[..n]| && BodyLen(lanes[..n][i]) > 0;
      assert BodyLen(lanes[i]) > 0;
    }
  }

  // ---- growth of the scan

  ghost predicate Grown(got: seq<nat>, got': seq<nat>) {
    |got| == |got'| && forall i | 0 <= i < |got| :: got[i] <= got'[i]
  }

  lemma HoldGrows(f: Feed, got: seq<nat>, got': seq<nat>, s: seq<Item>, hold: Option<Lsn>, n: nat)
    requires |got| == |f.items| && Grown(got, got')
    requires HoldOK(f, got, s, hold, n)
    ensures HoldOK(f, got', s, hold, n)
  {
  }

  lemma EndGrows(f: Feed, got: seq<nat>, got': seq<nat>, s: seq<Item>, ends: seq<End>, x: nat, lo: nat, hi: nat)
    requires |got| == |f.items| && Grown(got, got') && x < |ends|
    requires EndOK(f, got, s, ends, x, lo, hi)
    ensures EndOK(f, got', s, ends, x, lo, hi)
  {
  }

  lemma OthersGrow(f: Feed, got: seq<nat>, lane: nat, i: nat, l: Lane)
    requires |got| == |f.items| && lane < |got| && i < |got| && i != lane
    requires LaneOK(f, got, i, l)
    ensures LaneOK(f, got[lane := got[lane] + 1], i, l)
  {
    var got' := got[lane := got[lane] + 1];
    var s := f.items[i];
    var n := Upto(s, l.delivered);
    if l.run.Some? {
      var r := l.run.value;
      forall x | 0 <= x < |r.ends| ensures EndOK(f, got', s, r.ends, x, n, got'[i]) {
        EndGrows(f, got, got', s, r.ends, x, n, got[i]);
      }
    }
  }

  // ---- a run's text and transactions

  lemma EndsAscend(f: Feed, got: seq<nat>, s: seq<Item>, run: Run, lo: nat, hi: nat, a: nat, b: nat)
    requires |got| == |f.items| && Sorted(s)
    requires RunOK(f, got, s, run, lo, hi)
    requires a < b < |run.ends|
    ensures run.ends[a].last.end < run.ends[b].last.end
    ensures Cut(s, run.ends[a]) < Cut(s, run.ends[b])
    decreases b
  {
    hide Upto, Body, HoldOK;
    assert EndOK(f, got, s, run.ends, b, lo, hi) && EndOK(f, got, s, run.ends, b - 1, lo, hi);
    var c, c' := Cut(s, run.ends[b - 1]), Cut(s, run.ends[b]);
    assert c < c' && s[c].pos.end > run.ends[b - 1].last.end;
    assert c == c' - 1 || Le(s[c].pos, s[c' - 1].pos);
    if a < b - 1 {
      EndsAscend(f, got, s, run, lo, hi, a, b - 1);
    }
  }

  /** Cutting a run after one of its transactions leaves a run. */
  lemma CutRun(f: Feed, got: seq<nat>, s: seq<Item>, run: Run, lo: nat, hi: nat, x: nat)
    requires |got| == |f.items| && Sorted(s)
    requires RunOK(f, got, s, run, lo, hi) && x < |run.ends|
    ensures run.ends[x].len <= |run.body|
    ensures RunOK(f, got, s, run.(body := run.body[..run.ends[x].len],
                                  ends := run.ends[..x + 1],
                                  last := run.ends[x].last), lo, Cut(s, run.ends[x]))
  {
    hide Cut, Body, HoldOK, EndOK, Sorted;
    var c := Cut(s, run.ends[x]);
    CutText(f, got, s, run, lo, hi, x);
    var ends := run.ends[..x + 1];
    forall y | 0 <= y < |ends| ensures EndOK(f, got, s, ends, y, lo, c) {
      CutEnd(f, got, s, run, lo, hi, x, y);
    }
  }

  lemma CutText(f: Feed, got: seq<nat>, s: seq<Item>, run: Run, lo: nat, hi: nat, x: nat)
    requires |got| == |f.items| && RunOK(f, got, s, run, lo, hi) && x < |run.ends|
    ensures var c := Cut(s, run.ends[x]);
            && lo < c <= hi && run.ends[x].len <= |run.body| && run.body[..run.ends[x].len] == Body(s[lo..c])
            && run.ends[x].last == s[c - 1].pos
  {
    hide Upto, Body, HoldOK;
    var c := Cut(s, run.ends[x]);
    assert EndOK(f, got, s, run.ends, x, lo, hi);
    if c < hi {
      BodyCut(s, lo, c, hi);
    }
  }

  lemma CutEnd(f: Feed, got: seq<nat>, s: seq<Item>, run: Run, lo: nat, hi: nat, x: nat, y: nat)
    requires |got| == |f.items| && Sorted(s) && RunOK(f, got, s, run, lo, hi) && y <= x < |run.ends|
    ensures EndOK(f, got, s, run.ends[..x + 1], y, lo, Cut(s, run.ends[x]))
  {
    hide Upto, Body, HoldOK, Sorted;
    var ends := run.ends[..x + 1];
    assert EndOK(f, got, s, run.ends, x, lo, hi);
    assert EndOK(f, got, s, run.ends, y, lo, hi);
    if y < x {
      EndsAscend(f, got, s, run, lo, hi, y, x);
    }
    assert CutBefore(s, ends, y, lo) == CutBefore(s, run.ends, y, lo);
  }

  datatype Part = Part(hold: Option<Lsn>, last: Pos, text: string)

  /** What splitting a run into its transactions must give: transaction `x` as the JSON array of
      exactly its own elements. */
  ghost predicate PartOK(s: seq<Item>, ends: seq<End>, x: nat, lo: nat, p: Part)
    requires x < |ends|
  {
    && CutBefore(s, ends, x, lo) <= Cut(s, ends[x]) <= |s|
    && p.hold == ends[x].hold
    && p.last == ends[x].last
    && p.text == ArrayText(s[CutBefore(s, ends, x, lo)..Cut(s, ends[x])])
  }

  /** Splits a run's body at the recorded lengths, one part for each transaction. */
  method Transactions(run: Run, ghost f: Feed, ghost got: seq<nat>, ghost s: seq<Item>, ghost lo: nat, ghost hi: nat)
    returns (parts: seq<Part>)
    requires |got| == |f.items| && Sorted(s)
    requires RunOK(f, got, s, run, lo, hi)
    ensures |parts| == |run.ends|
    ensures forall x | 0 <= x < |parts| :: PartOK(s, run.ends, x, lo, parts[x])
  {
    var start := 1;
    parts := [];
    for i := 0 to |run.ends|
      invariant |parts| == i
      invariant forall x | 0 <= x < i :: PartOK(s, run.ends, x, lo, parts[x])
      invariant start == if i == 0 then 1 else run.ends[i - 1].len + 1
    {
      assert EndOK(f, got, s, run.ends, i, lo, hi);
      ghost var b, c := CutBefore(s, run.ends, i, lo), Cut(s, run.ends[i]);
      SliceOfRun(f, got, s, run, lo, hi, i);
      var part := "[" + run.body[start..run.ends[i].len] + "]";
      parts := parts + [Part(run.ends[i].hold, run.ends[i].last, part)];
      start := run.ends[i].len + 1;
    }
  }

  lemma SliceOfRun(f: Feed, got: seq<nat>, s: seq<Item>, run: Run, lo: nat, hi: nat, x: nat)
    requires |got| == |f.items| && Sorted(s)
    requires RunOK(f, got, s, run, lo, hi) && x < |run.ends|
    ensures var start := if x == 0 then 1 else run.ends[x - 1].len + 1;
            var b, c := CutBefore(s, run.ends, x, lo), Cut(s, run.ends[x]);
            && start <= run.ends[x].len <= |run.body|
            && b <= c <= |s|
            && run.body[start..run.ends[x].len] == Join(s[b..c])
  {
    CutRun(f, got, s, run, lo, hi, x);
    var c := Cut(s, run.ends[x]);
    assert EndOK(f, got, s, run.ends, x, lo, hi);
    var text := run.body[..run.ends[x].len];
    assert text == Body(s[lo..c]);
    if x == 0 {
      assert run.body[1..run.ends[x].len] == text[1..];
    } else {
      var b := Cut(s, run.ends[x - 1]);
      assert EndOK(f, got, s, run.ends, x - 1, lo, hi);
      BodyCut(s, lo, b, c);
      assert run.body[run.ends[x - 1].len + 1..run.ends[x].len] == text[run.ends[x - 1].len + 1..];
    }
  }

  // ---- adding one element

  function Added(run: Run, pos: Pos, hold: Option<Lsn>, element: string): Run {
    var body := run.body + (if |run.body| > 1 then "," else "") + element;
    var n := |run.ends|;
    var ends :=
      if n > 0 && run.ends[n - 1].last.end == pos.end
      then run.ends[n - 1 := run.ends[n - 1].(last := pos, len := |body|)]
      else run.ends + [End(pos, hold, |body|)];
    run.(body := body, last := pos, ends := ends)
  }

  lemma AddedLength(run: Run, pos: Pos, hold: Option<Lsn>, element: string)
    ensures |Added(run, pos, hold, element).body| == |run.body| + |element| + (if |run.body| > 1 then 1 else 0)
  {
  }

  lemma FirstElement(f: Feed, got: seq<nat>, lane: nat, hold: Option<Lsn>)
    requires GoodFeed(f) && |got| == |f.items| && lane < |got| && got[lane] < |f.items[lane]|
    requires HoldOK(f, got, f.items[lane], hold, got[lane])
    ensures var s, n := f.items[lane], got[lane];
            var empty := Run(s[n].cols, "[", hold, s[n].pos, []);
            RunOK(f, got[lane := n + 1], s, Added(empty, s[n].pos, hold, s[n].text), n, n + 1)
  {
    var s, n := f.items[lane], got[lane];
    var got' := got[lane := n + 1];
    assert s[n..n + 1] == [s[n]];
    UptoAt(s, n + 1);
    HoldGrows(f, got, got', s, hold, n);
  }

  lemma NextElement(f: Feed, got: seq<nat>, lane: nat, run: Run, lo: nat, hold: Option<Lsn>)
    requires GoodFeed(f) && |got| == |f.items| && lane < |got| && got[lane] < |f.items[lane]|
    requires RunOK(f, got, f.items[lane], run, lo, got[lane])
    requires HoldOK(f, got, f.items[lane], hold, got[lane])
    requires f.items[lane][got[lane]].cols == run.cols
    ensures var s, n := f.items[lane], got[lane];
            RunOK(f, got[lane := n + 1], s, Added(run, s[n].pos, hold, s[n].text), lo, n + 1)
  {
    hide Upto, Cut, Join, HoldOK, EndOK, Body;
    var s, n := f.items[lane], got[lane];
    var hi := n + 1;
    var got' := got[lane := hi];
    var run' := Added(run, s[n].pos, hold, s[n].text);
    assert s[lo..hi] == s[lo..n] + [s[n]];
    BodyGrows(s[lo..n], s[n]);
    BodyLonger(s[lo..n]);
    assert run'.body == Body(s[lo..hi]);
    HoldGrows(f, got, got', s, run.hold, lo);
    forall x | 0 <= x < |run'.ends| ensures EndOK(f, got', s, run'.ends, x, lo, hi) {
      if x < |run.ends| - 1 {
        EarlierEnd(f, got, s, lane, run, lo, run'.ends, x);
      } else if x == |run.ends| - 1 {
        LastEnd(f, got, s, lane, run, lo, run'.ends, |run'.body|, hold);
      } else {
        FreshEnd(f, got, s, lane, run, lo, run'.ends, hold);
      }
    }
  }

  /** A transaction closed before the last one stays as it was. */
  lemma EarlierEnd(f: Feed, got: seq<nat>, s: seq<Item>, lane: nat, run: Run, lo: nat, ends: seq<End>, x: nat)
    requires |got| == |f.items| && lane < |got| && Sorted(s) && got[lane] < |s|
    requires RunOK(f, got, s, run, lo, got[lane])
    requires x + 1 < |run.ends| <= |ends| && ends[..x + 1] == run.ends[..x + 1]
    ensures EndOK(f, got[lane := got[lane] + 1], s, ends, x, lo, got[lane] + 1)
  {
    hide Upto, Cut, CutBefore, Body, HoldOK;
    var n := got[lane];
    assert ends[x] == ends[..x + 1][x] == run.ends[..x + 1][x] == run.ends[x];
    assert ends[..x] == ends[..x + 1][..x] == run.ends[..x + 1][..x] == run.ends[..x];
    SameBefore(s, run.ends, ends, x, lo);
    assert EndOK(f, got, s, run.ends, x, lo, n);
    assert Cut(s, ends[x]) < n;
    HoldGrows(f, got, got[lane := n + 1], s, ends[x].hold, CutBefore(s, ends, x, lo));
  }

  lemma RunEnds(f: Feed, got: seq<nat>, s: seq<Item>, run: Run, lo: nat, hi: nat)
    requires |got| == |f.items| && Sorted(s) && RunOK(f, got, s, run, lo, hi)
    ensures lo < hi <= |s| && |run.ends| > 0 && EndOK(f, got, s, run.ends, |run.ends| - 1, lo, hi)
    ensures hi < |s| ==> Le(s[hi - 1].pos, s[hi].pos)
  {
  }

  lemma SameBefore(s: seq<Item>, ends: seq<End>, ends': seq<End>, x: nat, lo: nat)
    requires x <= |ends| && x <= |ends'| && ends[..x] == ends'[..x]
    ensures CutBefore(s, ends', x, lo) == CutBefore(s, ends, x, lo)
  {
    hide Cut;
    if x > 0 {
      assert ends[x - 1] == ends[..x][x - 1] == ends'[..x][x - 1] == ends'[x - 1];
    }
  }

  lemma CutIs(s: seq<Item>, e: End, n: nat)
    requires Sorted(s) && 0 < n <= |s| && e.last == s[n - 1].pos
    ensures Cut(s, e) == n
  {
    hide Upto, Sorted;
    UptoAt(s, n);
  }

  /** The last transaction either takes the new element in or is closed by it. */
  lemma LastEnd(f: Feed, got: seq<nat>, s: seq<Item>, lane: nat, run: Run, lo: nat, ends: seq<End>, len: nat,
                hold: Option<Lsn>)
    requires |got| == |f.items| && lane < |got| && Sorted(s) && got[lane] < |s|
    requires RunOK(f, got, s, run, lo, got[lane])
    requires var m, pos := |run.ends| - 1, s[got[lane]].pos;
             ends == if run.ends[m].last.end == pos.end
                     then run.ends[m := run.ends[m].(last := pos, len := len)]
                     else run.ends + [End(pos, hold, len)]
    requires len == |Body(s[lo..got[lane] + 1])|
    ensures EndOK(f, got[lane := got[lane] + 1], s, ends, |run.ends| - 1, lo, got[lane] + 1)
  {
    hide Upto, Cut, CutBefore, Body, HoldOK, RunOK, Sorted;
    var n, m := got[lane], |run.ends| - 1;
    RunEnds(f, got, s, run, lo, n);
    assert Le(s[n - 1].pos, s[n].pos);
    SameBefore(s, run.ends, ends, m, lo);
    HoldGrows(f, got, got[lane := n + 1], s, run.ends[m].hold, CutBefore(s, run.ends, m, lo));
    if run.ends[m].last.end == s[n].pos.end {
      CutIs(s, ends[m], n + 1);
    } else {
      assert ends[m] == run.ends[m];
    }
  }

  lemma FreshEnd(f: Feed, got: seq<nat>, s: seq<Item>, lane: nat, run: Run, lo: nat, ends: seq<End>,
                 hold: Option<Lsn>)
    requires |got| == |f.items| && lane < |got| && Sorted(s) && got[lane] < |s|
    requires RunOK(f, got, s, run, lo, got[lane])
    requires HoldOK(f, got, s, hold, got[lane])
    requires ends == run.ends + [End(s[got[lane]].pos, hold, |Body(s[lo..got[lane] + 1])|)]
    ensures EndOK(f, got[lane := got[lane] + 1], s, ends, |run.ends|, lo, got[lane] + 1)
  {
    hide Upto, Body;
    var n, m := got[lane], |run.ends|;
    assert EndOK(f, got, s, run.ends, m - 1, lo, n);
    UptoAt(s, n + 1);
    assert ends[m - 1] == run.ends[m - 1];
    HoldGrows(f, got, got[lane := n + 1], s, hold, n);
  }

  lemma BodyLonger(s: seq<Item>)
    requires Written(s) && s != []
    ensures |Body(s)| > 1
  {
  }
}
