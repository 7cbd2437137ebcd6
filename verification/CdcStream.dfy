/** What one replication slot feeds to each mapping: positions, elements, and the JSON text
    a run of elements is rendered from. */
module CdcStream {
  import opened Common

  /** A WAL position: an unsigned 64-bit integer. */
  const MAX_LSN: nat := 0xffff_ffff_ffff_ffff
  type Lsn = x: int | 0 <= x <= MAX_LSN

  /** Positions are ordered by the LSN a transaction ends at, then by rank inside it. */
  datatype Pos = Pos(end: Lsn, rank: nat)

  /** The rank of a summary, above that of any change. */
  const SUMMARY_SEQ: nat := 0x7fff_ffff_ffff_ffff

  predicate Le(a: Pos, b: Pos) {
    a.end < b.end || (a.end == b.end && a.rank <= b.rank)
  }

  /** Whether a lane whose delivered position is `p` has delivered the change at `q`. */
  predicate Delivered(p: Option<Pos>, q: Pos) {
    p.Some? && Le(q, p.value)
  }

  /** One element offered to a lane. */
  datatype Item = Item(pos: Pos, cols: string, text: string)

  /** Everything the slot will ever offer to each lane, in commit order, and which lanes carry
      transaction summaries. */
  datatype Feed = Feed(items: seq<seq<Item>>, summary: seq<bool>)

  ghost predicate Sorted(s: seq<Item>) {
    forall a, b | 0 <= a < b < |s| :: Le(s[a].pos, s[b].pos) && s[a].pos != s[b].pos
  }

  ghost predicate Written(s: seq<Item>) {
    forall a | 0 <= a < |s| :: s[a].text != ""
  }

  ghost predicate GoodFeed(f: Feed) {
    && |f.items| == |f.summary|
    && forall i | 0 <= i < |f.items| :: Sorted(f.items[i]) && Written(f.items[i])
  }

  /** How many items of `s` a delivered position stands for. */
  ghost function Upto(s: seq<Item>, p: Option<Pos>): (n: nat)
    ensures n <= |s|
  {
    if |s| == 0 then 0
    else if Delivered(p, s[|s| - 1].pos) then |s|
    else Upto(s[..|s| - 1], p)
  }

  /** In a sorted stream the delivered items are exactly the first `Upto` of them. */
  lemma {:induction false} UptoSplits(s: seq<Item>, p: Option<Pos>)
    requires Sorted(s)
    ensures forall k | 0 <= k < |s| :: k < Upto(s, p) <==> Delivered(p, s[k].pos)
  {
    if |s| > 0 && !Delivered(p, s[|s| - 1].pos) {
      var t := s[..|s| - 1];
      UptoSplits(t, p);
      forall k | 0 <= k < |s| ensures k < Upto(s, p) <==> Delivered(p, s[k].pos) {
        if k < |t| {
          assert t[k] == s[k];
        }
      }
    }
  }

  lemma UptoAt(s: seq<Item>, n: nat)
    requires Sorted(s) && 0 < n <= |s|
    ensures Upto(s, Some(s[n - 1].pos)) == n
  {
  }

  // ---- the text of a run

  /** Elements separated by commas. */
  ghost function Join(s: seq<Item>): string {
    if |s| == 0 then ""
    else if |s| == 1 then s[0].text
    else Join(s[..|s| - 1]) + "," + s[|s| - 1].text
  }

  /** A run's buffer: an open JSON array. */
  ghost function Body(s: seq<Item>): string {
    "[" + Join(s)
  }

  /** What is handed to the renderer. */
  ghost function ArrayText(s: seq<Item>): string {
    "[" + Join(s) + "]"
  }

  lemma BodyGrows(s: seq<Item>, x: Item)
    ensures Body(s + [x]) == Body(s) + (if s == [] then "" else ",") + x.text
  {
  }

  lemma {:induction false} JoinAppend(a: seq<Item>, b: seq<Item>)
    requires a != [] && b != []
    ensures Join(a + b) == Join(a) + "," + Join(b)
    decreases |b|
  {
    var n := |b| - 1;
    assert (a + b)[..|a + b| - 1] == a + b[..n];
    if n == 0 {
      assert a + b[..n] == a;
    } else {
      JoinAppend(a, b[..n]);
    }
  }

  /** Cutting the text of a run where the text of its first `mid` elements ends, and skipping
      one comma, leaves the text of the rest. */
  lemma BodyCut(s: seq<Item>, lo: nat, mid: nat, hi: nat)
    requires lo < mid < hi <= |s|
    ensures |Body(s[lo..mid])| < |Body(s[lo..hi])|
    ensures Body(s[lo..hi])[..|Body(s[lo..mid])|] == Body(s[lo..mid])
    ensures Body(s[lo..hi])[|Body(s[lo..mid])| + 1..] == Join(s[mid..hi])
  {
    assert s[lo..hi] == s[lo..mid] + s[mid..hi];
    JoinAppend(s[lo..mid], s[mid..hi]);
    assert Body(s[lo..hi]) == Body(s[lo..mid]) + "," + Join(s[mid..hi]);
  }
}
