/** The shared fanout cursor with the peer lists of the topology: a warm list of `w` in-view peers for
    the view-scoped plane, and every peer row, the local one included, for the global plane
    (src/gossip/outbound.rs, src/topology/sync.rs). */
module WarmCursor {
  import opened Basics
  import opened Messages
  import opened Fanout
  import opened OutboundWorker
  import opened SharedCursor

  // ----- Remainders -----

  lemma {:induction false} LeftoverSum(a: nat, b: nat, m: nat)
    requires m > 0
    ensures Leftover(a + b, m) ==
              var s := Leftover(a, m) + Leftover(b, m); if s < m then s else s - m
    decreases a
  {
    if a >= m {
      LeftoverSum(a - m, b, m);
    } else {
      LeftoverAdd(a, b, m);
    }
  }

  /** How far the remainder `rho` is ahead of `e` on a circle of `m`. */
  function Gap(e: nat, rho: nat, m: nat): nat
    requires e < m && rho < m
  {
    if rho >= e then rho - e else rho + m - e
  }

  lemma LeftoverGap(c: nat, j: nat, m: nat)
    requires m > 0 && c <= j
    ensures Leftover(j - c, m) == Gap(Leftover(c, m), Leftover(j, m), m)
  {
    LeftoverSum(c, j - c, m);
  }

  // ----- One turn -----

  /** A fanout below the warm list, and fewer rows outside it than the fanout. */
  predicate Sizes(n: nat, w: nat, u: nat) {
    0 < n < w < u < w + n
  }

  /** The start of the next global window. The first case is a window that ran past the last row. */
  function NextStart(c: nat, n: nat, w: nat, u: nat): (r: nat)
    requires Sizes(n, w, u) && c < w
    ensures r < w
  {
    if c + n >= u then Land(c + 2 * n - u, w)
    else if c + 2 * n < w then c + 2 * n
    else Land(c + 2 * n - w, w)
  }

  function Land(v: nat, w: nat): nat {
    if v < w then v else v - w
  }

  /** The window from `c` reads the row at `j`, of `u`. */
  predicate Reads(c: nat, j: nat, n: nat, u: nat) {
    c <= j < c + n || j + u < c + n
  }

  predicate ReadWithin(c: nat, j: nat, n: nat, w: nat, u: nat, k: nat)
    requires Sizes(n, w, u) && c < w
    decreases k
  {
    k > 0 && (Reads(c, j, n, u) || ReadWithin(NextStart(c, n, w, u), j, n, w, u, k - 1))
  }

  // ----- When every row is read -----

  /** A row ahead, less than a window into a turn, is read before the cursor comes round. */
  lemma {:induction false} ReadThisRound(c: nat, j: nat, n: nat, w: nat, u: nat) returns (k: nat)
    requires Sizes(n, w, u) && c <= j < w && Leftover(j - c, 2 * n) < n
    ensures ReadWithin(c, j, n, w, u, k)
    decreases j - c
  {
    if j < c + n {
      k := 1;
    } else {
      var rest := ReadThisRound(c + 2 * n, j, n, w, u);
      k := rest + 1;
    }
  }

  /** What the end of a round does to the phase of the cursor within a turn. */
  lemma RoundEnds(c: nat, n: nat, w: nat)
    requires 0 < n && c < w <= c + 2 * n
    ensures var x, r := c + 2 * n - w, Leftover(w, 2 * n);
            x < 2 * n && Leftover(c, 2 * n) == if r + x < 2 * n then r + x else r + x - 2 * n
  {
    var x := c + 2 * n - w;
    LeftoverSum(w, x, 2 * n);
    assert Leftover(w + x, 2 * n) == Leftover(c, 2 * n);
  }

  /** How far a row is into a turn that starts at the cursor. */
  function Ahead(c: nat, j: nat, n: nat): nat
    requires n > 0
  {
    Gap(Leftover(c, 2 * n), Leftover(j, 2 * n), 2 * n)
  }

  /** The warm list ends early in a turn. */
  predicate EndsEarly(n: nat, w: nat, u: nat)
    requires Sizes(n, w, u)
  {
    1 <= Leftover(w, 2 * n) && Leftover(w, 2 * n) + (u - w) <= n
  }

  /** It ends late in a turn. */
  predicate EndsLate(n: nat, w: nat, u: nat)
    requires Sizes(n, w, u)
  {
    n + (u - w) <= Leftover(w, 2 * n) && Leftover(w, 2 * n) + (u - w) < 2 * n
  }

  /** The cursor is in its last turn of the round, and has not read the row. */
  predicate RoundEndsUnread(c: nat, j: nat, n: nat, w: nat, u: nat) {
    Sizes(n, w, u) && c < w <= c + 2 * n && j < w && !Reads(c, j, n, u)
  }

  /** The row is ahead of the cursor and within the window of a turn. */
  predicate ReadNext(c: nat, j: nat, n: nat)
    requires n > 0
  {
    c <= j && Leftover(j - c, 2 * n) < n
  }

  /** Then the row moves further into the turn, unless it is read in the next round. */
  lemma EarlyAdvances(c: nat, j: nat, n: nat, w: nat, u: nat)
    requires RoundEndsUnread(c, j, n, w, u) && EndsEarly(n, w, u)
    requires !ReadNext(NextStart(c, n, w, u), j, n)
    ensures Ahead(NextStart(c, n, w, u), j, n) > Ahead(c, j, n)
  {
    var v := NextStart(c, n, w, u);
    RoundEnds(c, n, w);
    assert w >= 2 * n;
    if v <= j {
      LeftoverGap(v, j, 2 * n);
    }
  }

  lemma {:induction false} EarlyReadsWarmRows(c: nat, j: nat, n: nat, w: nat, u: nat) returns (k: nat)
    requires Sizes(n, w, u) && EndsEarly(n, w, u) && c < w && j < w
    ensures ReadWithin(c, j, n, w, u, k)
    decreases 2 * n - Ahead(c, j, n), w - c
  {
    var v := NextStart(c, n, w, u);
    if Reads(c, j, n, u) {
      k := 1;
    } else if ReadNext(v, j, n) {
      var rest := ReadThisRound(v, j, n, w, u);
      k := rest + 1;
    } else {
      if c + 2 * n >= w {
        EarlyAdvances(c, j, n, w, u);
      }
      var rest := EarlyReadsWarmRows(v, j, n, w, u);
      k := rest + 1;
    }
  }

  /** How many rounds at most are left when the warm list ends late. A row behind the cursor counts
      for a round of its own. */
  function RoundsLeft(c: nat, j: nat, n: nat, w: nat, u: nat): nat
    requires Sizes(n, w, u)
  {
    if Ahead(c, j, n) + u <= w + n then 2 * n + 1 else Ahead(c, j, n)
  }

  lemma LateAdvances(c: nat, j: nat, n: nat, w: nat, u: nat)
    requires RoundEndsUnread(c, j, n, w, u) && EndsLate(n, w, u)
    requires !ReadNext(NextStart(c, n, w, u), j, n)
    ensures RoundsLeft(NextStart(c, n, w, u), j, n, w, u) < RoundsLeft(c, j, n, w, u)
  {
    var v := NextStart(c, n, w, u);
    RoundEnds(c, n, w);
    if v <= j {
      LeftoverGap(v, j, 2 * n);
    }
  }

  lemma {:induction false} LateReadsWarmRows(c: nat, j: nat, n: nat, w: nat, u: nat) returns (k: nat)
    requires Sizes(n, w, u) && EndsLate(n, w, u) && c < w && j < w
    ensures ReadWithin(c, j, n, w, u, k)
    decreases RoundsLeft(c, j, n, w, u), w - c
  {
    var v := NextStart(c, n, w, u);
    if Reads(c, j, n, u) {
      k := 1;
    } else if ReadNext(v, j, n) {
      var rest := ReadThisRound(v, j, n, w, u);
      k := rest + 1;
    } else {
      if c + 2 * n >= w {
        LateAdvances(c, j, n, w, u);
      }
      var rest := LateReadsWarmRows(v, j, n, w, u);
      k := rest + 1;
    }
  }

  /** How far the cursor is from a window that runs past the last row. */
  function ToOverrun(c: nat, n: nat, w: nat, u: nat): nat
    requires Sizes(n, w, u)
  {
    var e := Leftover(c, 2 * n);
    if Leftover(w, 2 * n) < n then e
    else if e + w >= n + u then 2 * n + 1
    else 2 * n - e
  }

  lemma OverrunNears(c: nat, n: nat, w: nat, u: nat)
    requires Sizes(n, w, u) && (EndsEarly(n, w, u) || EndsLate(n, w, u)) && c < w <= c + 2 * n && c + n < u
    ensures ToOverrun(NextStart(c, n, w, u), n, w, u) < ToOverrun(c, n, w, u)
  {
    RoundEnds(c, n, w);
  }

  /** A row past the warm ones is read by a window that runs past the last row. */
  lemma {:induction false} ReadsLastRows(c: nat, j: nat, n: nat, w: nat, u: nat) returns (k: nat)
    requires Sizes(n, w, u) && (EndsEarly(n, w, u) || EndsLate(n, w, u)) && c < w <= j < u
    ensures ReadWithin(c, j, n, w, u, k)
    decreases ToOverrun(c, n, w, u), w - c
  {
    if Reads(c, j, n, u) {
      k := 1;
    } else {
      if c + 2 * n >= w {
        OverrunNears(c, n, w, u);
      }
      var rest := ReadsLastRows(NextStart(c, n, w, u), j, n, w, u);
      k := rest + 1;
    }
  }

  // ----- When some row is not -----

  lemma MultiplesApart(a: nat, b: nat, m: nat)
    requires m > 0 && a < b && Leftover(a, m) == Leftover(b, m)
    ensures a + m <= b
  {
    LeftoverGap(a, b, m);
  }

  lemma LeftoverOfLess(a: nat, b: nat, m: nat)
    requires m > 0 && a >= b && Leftover(b, m) == 0
    ensures Leftover(a - b, m) == Leftover(a, m)
  {
    LeftoverSum(a - b, b, m);
  }

  /** If the warm list is a whole number of windows, windows that start at one never reach past it. */
  lemma {:induction false} LastRowUnread(c: nat, n: nat, w: nat, u: nat, k: nat)
    requires Sizes(n, w, u) && c < w && Leftover(w, n) == 0 && Leftover(c, n) == 0
    ensures !ReadWithin(c, u - 1, n, w, u, k)
    decreases k
  {
    if k > 0 {
      MultiplesApart(c, w, n);
      var v := c + 2 * n;
      assert Leftover(v, n) == Leftover(c + n, n) == Leftover(c, n);
      if v >= w {
        LeftoverOfLess(v, w, n);
      }
      LastRowUnread(NextStart(c, n, w, u), n, w, u, k - 1);
    }
  }

  /** If the rows are a whole number of turns, windows in the second half of a turn stay there. */
  lemma {:induction false} FirstRowUnread(c: nat, n: nat, w: nat, u: nat, k: nat)
    requires Sizes(n, w, u) && c < w && Leftover(u, 2 * n) == 0 && Leftover(c, 2 * n) == n
    ensures !ReadWithin(c, 0, n, w, u, k)
    decreases k
  {
    if k > 0 {
      LeftoverGap(c, u, 2 * n);
      assert u - c >= n;
      assert u - c == n || u - c >= 3 * n;
      FirstRowUnread(NextStart(c, n, w, u), n, w, u, k - 1);
    }
  }

  // ----- The view-scoped plane -----

  /** The view-scoped window just before the global window from `c` reads the warm peer at `q`. */
  predicate ReadsWarm(c: nat, q: nat, n: nat, w: nat) {
    q < c <= q + n || c + w <= q + n
  }

  predicate ReadWarmWithin(c: nat, q: nat, n: nat, w: nat, u: nat, k: nat)
    requires Sizes(n, w, u) && c < w
    decreases k
  {
    k > 0 && (ReadsWarm(c, q, n, w) || ReadWarmWithin(NextStart(c, n, w, u), q, n, w, u, k - 1))
  }

  /** The warm peer is in the other half of a turn from the global window, and ahead of it. */
  predicate WarmNext(c: nat, q: nat, n: nat)
    requires n > 0
  {
    c <= q && Leftover(q - c, 2 * n) >= n
  }

  lemma {:induction false} ReadWarmThisRound(c: nat, q: nat, n: nat, w: nat, u: nat) returns (k: nat)
    requires Sizes(n, w, u) && q < w && WarmNext(c, q, n)
    ensures ReadWarmWithin(c, q, n, w, u, k)
    decreases q - c
  {
    if q < c + 2 * n {
      k := 2;
      assert ReadsWarm(NextStart(c, n, w, u), q, n, w);
      assert ReadWarmWithin(NextStart(c, n, w, u), q, n, w, u, 1);
    } else {
      var rest := ReadWarmThisRound(c + 2 * n, q, n, w, u);
      k := rest + 1;
    }
  }

  /** Neither list ends on a whole turn, and both end in the same half of one. */
  predicate EndsTogether(n: nat, w: nat, u: nat)
    requires Sizes(n, w, u)
  {
    var r, s := Leftover(w, 2 * n), Leftover(w, 2 * n) + (u - w);
    1 <= r && s < 2 * n && (s <= n || n <= r)
  }

  function WarmRoundsLeft(c: nat, q: nat, n: nat, w: nat): nat
    requires n > 0
  {
    var y := Ahead(c, q, n);
    if y >= n then n + 1 else if Leftover(w, 2 * n) < n then n - y else y
  }

  lemma WarmAdvances(c: nat, q: nat, n: nat, w: nat, u: nat)
    requires Sizes(n, w, u) && EndsTogether(n, w, u) && c < w <= c + 2 * n && q < w
    requires var v := NextStart(c, n, w, u); !ReadsWarm(v, q, n, w) && !WarmNext(v, q, n)
    ensures WarmRoundsLeft(NextStart(c, n, w, u), q, n, w) < WarmRoundsLeft(c, q, n, w)
  {
    var v := NextStart(c, n, w, u);
    RoundEnds(c, n, w);
    if v <= q {
      LeftoverGap(v, q, 2 * n);
    }
  }

  lemma {:induction false} ReadsWarmPeers(c: nat, q: nat, n: nat, w: nat, u: nat) returns (k: nat)
    requires Sizes(n, w, u) && EndsTogether(n, w, u) && c < w && q < w
    ensures ReadWarmWithin(c, q, n, w, u, k)
    decreases WarmRoundsLeft(c, q, n, w), w - c
  {
    var v := NextStart(c, n, w, u);
    if ReadsWarm(v, q, n, w) {
      k := 2;
      assert ReadWarmWithin(v, q, n, w, u, 1);
    } else if WarmNext(v, q, n) {
      var rest := ReadWarmThisRound(v, q, n, w, u);
      k := rest + 1;
    } else {
      if c + 2 * n >= w {
        WarmAdvances(c, q, n, w, u);
      }
      var rest := ReadsWarmPeers(v, q, n, w, u);
      k := rest + 1;
    }
  }

  lemma {:induction false} FirstWarmUnread(c: nat, n: nat, w: nat, u: nat, k: nat)
    requires Sizes(n, w, u) && c < w && Leftover(w, 2 * n) == 0 && Leftover(c, 2 * n) == 0
    ensures !ReadWarmWithin(c, 0, n, w, u, k)
    decreases k
  {
    if k > 0 {
      MultiplesApart(c, w, 2 * n);
      FirstWarmUnread(NextStart(c, n, w, u), n, w, u, k - 1);
    }
  }

  lemma {:induction false} SecondWarmUnread(c: nat, n: nat, w: nat, u: nat, k: nat)
    requires Sizes(n, w, u) && c < w && Leftover(u, 2 * n) == 0 && Leftover(c, 2 * n) == n
    ensures !ReadWarmWithin(c, n, n, w, u, k)
    decreases k
  {
    if k > 0 {
      LeftoverGap(c, u, 2 * n);
      assert u - c == n || u - c >= 3 * n;
      assert c == n || c >= 3 * n;
      SecondWarmUnread(NextStart(c, n, w, u), n, w, u, k - 1);
    }
  }

  // ----- The windows that ticks choose -----

  /** The global windows of `k` busy ticks beside warm lists of `w`, and the view-scoped windows beside
      `u` rows. */
  function GlobalWindows(rows: seq<Peer>, cursor: nat, n: nat, w: nat, k: nat): seq<Peer>
    requires 0 < w <= |rows|
    decreases k
  {
    if k == 0 then []
    else
      var c := Advance(cursor % w, n, w);
      Walk(rows, c, n) + GlobalWindows(rows, Advance(c, n, |rows|), n, w, k - 1)
  }

  function WarmWindows(warm: seq<Peer>, cursor: nat, n: nat, u: nat, k: nat): seq<Peer>
    requires 0 < |warm| <= u
    decreases k
  {
    if k == 0 then []
    else
      var s := cursor % |warm|;
      Walk(warm, s, n) + WarmWindows(warm, Advance(Advance(s, n, |warm|), n, u), n, u, k - 1)
  }

  lemma {:induction false} AdvanceIs(start: nat, length: nat, m: nat)
    requires start < m && length <= m
    ensures Advance(start, length, m) == if start + length < m then start + length else start + length - m
    decreases length
  {
    if length > 0 {
      AdvanceIs(Next(start, m), length - 1, m);
    }
  }

  lemma StartsFollow(c: nat, n: nat, w: nat, u: nat)
    requires Sizes(n, w, u) && c < w
    ensures Advance(Advance(c, n, u) % w, n, w) == NextStart(c, n, w, u)
  {
    var a := Advance(c, n, u);
    AdvanceIs(c, n, u);
    WrapIsMod(a, w);
    AdvanceIs(Wrap(a, w), n, w);
  }

  lemma {:induction false} GlobalReadIff(rows: seq<Peer>, cursor: nat, n: nat, w: nat, k: nat, j: nat)
    requires DistinctPeers(rows) && Sizes(n, w, |rows|) && j < |rows|
    ensures rows[j] in GlobalWindows(rows, cursor, n, w, k) <==>
              ReadWithin(Advance(cursor % w, n, w), j, n, w, |rows|, k)
    decreases k
  {
    if k > 0 {
      var c := Advance(cursor % w, n, w);
      InWindowIff(rows, c, j, n);
      StartsFollow(c, n, w, |rows|);
      GlobalReadIff(rows, Advance(c, n, |rows|), n, w, k - 1, j);
    }
  }

  lemma {:induction false} WarmReadIff(warm: seq<Peer>, cursor: nat, n: nat, u: nat, k: nat, q: nat)
    requires DistinctPeers(warm) && Sizes(n, |warm|, u) && q < |warm|
    ensures warm[q] in WarmWindows(warm, cursor, n, u, k) <==>
              ReadWarmWithin(Advance(cursor % |warm|, n, |warm|), q, n, |warm|, u, k)
    decreases k
  {
    if k > 0 {
      var w := |warm|;
      var s := cursor % w;
      var c := Advance(s, n, w);
      InWindowIff(warm, s, q, n);
      AdvanceIs(s, n, w);
      StartsFollow(c, n, w, u);
      WarmReadIff(warm, Advance(c, n, u), n, u, k - 1, q);
    }
  }

  /** Some cursor puts the global window at `c`. */
  lemma CursorFor(c: nat, n: nat, w: nat) returns (cursor: nat)
    requires 0 < n <= w && c < w
    ensures Advance(cursor % w, n, w) == c
  {
    cursor := if c >= n then c - n else c + w - n;
    QuotientUnique(cursor, w, 0, cursor);
    AdvanceIs(cursor, n, w);
  }

  /** Whatever peers are warm, `w` of them at every tick: the global plane chooses these windows. */
  lemma {:induction false} GlobalTicks(ticks: seq<Peers>, population: seq<Peer>, n: nat, w: nat, cursor: nat)
    requires DistinctPeers(population) && 0 < n < w <= |population|
    requires forall i :: 0 <= i < |ticks| ==> |ticks[i].warm| == w && multiset(ticks[i].unscoped) == multiset(population)
    ensures |ById(population)| == |population|
    ensures PicksOf(ticks, Some(n), cursor).global == GlobalWindows(ById(population), cursor, n, w, |ticks|)
    decreases |ticks|
  {
    SortKeepsSize(population);
    if ticks != [] {
      var u := |population|;
      var c := Advance(cursor % w, n, w);
      SortKeepsSize(ticks[0].warm);
      SelectionIsAWalk(ticks[0].unscoped, population, n, c);
      QuotientUnique(c, u, 0, c);
      GlobalTicks(ticks[1..], population, n, w, Advance(c, n, u));
    }
  }

  /** The view-scoped plane chooses these, when the same peers stay warm. */
  lemma {:induction false} WarmTicks(ticks: seq<Peers>, warm: seq<Peer>, n: nat, u: nat, cursor: nat)
    requires DistinctPeers(warm) && 0 < n < |warm| <= u
    requires forall i :: 0 <= i < |ticks| ==> multiset(ticks[i].warm) == multiset(warm) && |ticks[i].unscoped| == u
    ensures |ById(warm)| == |warm|
    ensures PicksOf(ticks, Some(n), cursor).scoped == WarmWindows(ById(warm), cursor, n, u, |ticks|)
    decreases |ticks|
  {
    SortKeepsSize(warm);
    if ticks != [] {
      var c := Advance(cursor % |warm|, n, |warm|);
      SelectionIsAWalk(ticks[0].warm, warm, n, cursor);
      SortKeepsSize(ticks[0].unscoped);
      QuotientUnique(c, u, 0, c);
      WarmTicks(ticks[1..], warm, n, u, Advance(c, n, u));
    }
  }

  // ----- Many more rows than warm peers -----

  lemma WindowBelow(rows: seq<Peer>, c: nat, n: nat, j: nat)
    requires DistinctPeers(rows) && c + n <= j < |rows|
    ensures rows[j] !in Walk(rows, c, n)
  {
    InWindowIff(rows, c, j, n);
  }

  /** While at most `w` peers are warm, the global plane never chooses a row `w + n - 1` or more from the
      start of the list, from any cursor and over any busy ticks. */
  lemma {:induction false} FarRowsUnread(ticks: seq<Peers>, population: seq<Peer>, n: nat, w: nat, cursor: nat, j: nat)
    requires DistinctPeers(population) && 0 < n && 0 < w && w + n <= |population| && w + n - 1 <= j < |population|
    requires forall i :: 0 <= i < |ticks| ==> |ticks[i].warm| <= w && multiset(ticks[i].unscoped) == multiset(population)
    ensures |ById(population)| == |population|
    ensures ById(population)[j] !in PicksOf(ticks, Some(n), cursor).global
    decreases |ticks|
  {
    SortKeepsSize(population);
    if ticks != [] {
      var u := |population|;
      var c := ChoosePeers(ViewScoped, ticks[0], Some(n), cursor).cursor;
      SortKeepsSize(ticks[0].warm);
      assert c < w;
      SelectionIsAWalk(ticks[0].unscoped, population, n, c);
      QuotientUnique(c, u, 0, c);
      RingIsDistinct(population);
      WindowBelow(ById(population), c, n, j);
      FarRowsUnread(ticks[1..], population, n, w, Advance(c, n, u), j);
    }
  }

  // ----- Coverage -----

  /** From every cursor, every row is chosen after some number of busy ticks. */
  ghost predicate GlobalCovers(rows: seq<Peer>, n: nat, w: nat)
    requires 0 < w <= |rows|
  {
    forall cursor: nat, j :: 0 <= j < |rows| ==> RowReached(rows, n, w, cursor, j)
  }

  ghost predicate RowReached(rows: seq<Peer>, n: nat, w: nat, cursor: nat, j: nat)
    requires 0 < w <= |rows| && j < |rows|
  {
    exists k :: rows[j] in GlobalWindows(rows, cursor, n, w, k)
  }

  ghost predicate WarmCovers(warm: seq<Peer>, n: nat, u: nat)
    requires 0 < |warm| <= u
  {
    forall cursor: nat, q :: 0 <= q < |warm| ==> WarmPeerReached(warm, n, u, cursor, q)
  }

  ghost predicate WarmPeerReached(warm: seq<Peer>, n: nat, u: nat, cursor: nat, q: nat)
    requires 0 < |warm| <= u && q < |warm|
  {
    exists k :: warm[q] in WarmWindows(warm, cursor, n, u, k)
  }

  /** If the warm list ends early or late in a turn, together with the rows, the global plane covers all
      rows. */
  lemma GlobalCoversWhen(rows: seq<Peer>, n: nat, w: nat)
    requires DistinctPeers(rows) && Sizes(n, w, |rows|) && (EndsEarly(n, w, |rows|) || EndsLate(n, w, |rows|))
    ensures GlobalCovers(rows, n, w)
  {
    var u := |rows|;
    forall cursor: nat, j | 0 <= j < u ensures RowReached(rows, n, w, cursor, j) {
      var c := Advance(cursor % w, n, w);
      var k;
      if j >= w {
        k := ReadsLastRows(c, j, n, w, u);
      } else if EndsEarly(n, w, u) {
        k := EarlyReadsWarmRows(c, j, n, w, u);
      } else {
        k := LateReadsWarmRows(c, j, n, w, u);
      }
      GlobalReadIff(rows, cursor, n, w, k, j);
    }
  }

  /** If the warm list is a whole number of windows, or the rows a whole number of turns, it does not. */
  lemma GlobalStarvesWhen(rows: seq<Peer>, n: nat, w: nat)
    requires DistinctPeers(rows) && Sizes(n, w, |rows|) && (w % n == 0 || |rows| % (2 * n) == 0)
    ensures !GlobalCovers(rows, n, w)
  {
    var u := |rows|;
    LeftoverIsModulo(w, n);
    LeftoverIsModulo(u, 2 * n);
    if w % n == 0 {
      var cursor := CursorFor(0, n, w);
      forall k ensures rows[u - 1] !in GlobalWindows(rows, cursor, n, w, k) {
        LastRowUnread(0, n, w, u, k);
        GlobalReadIff(rows, cursor, n, w, k, u - 1);
      }
      assert !RowReached(rows, n, w, cursor, u - 1);
    } else {
      var cursor := CursorFor(n, n, w);
      forall k ensures rows[0] !in GlobalWindows(rows, cursor, n, w, k) {
        FirstRowUnread(n, n, w, u, k);
        GlobalReadIff(rows, cursor, n, w, k, 0);
      }
      assert !RowReached(rows, n, w, cursor, 0);
    }
  }

  lemma {:induction false} FarWindowsUnread(rows: seq<Peer>, cursor: nat, n: nat, w: nat, k: nat, j: nat)
    requires DistinctPeers(rows) && 0 < n && 0 < w && w + n <= |rows| && w + n - 1 <= j < |rows|
    ensures rows[j] !in GlobalWindows(rows, cursor, n, w, k)
    decreases k
  {
    if k > 0 {
      var c := Advance(cursor % w, n, w);
      WindowBelow(rows, c, n, j);
      FarWindowsUnread(rows, Advance(c, n, |rows|), n, w, k - 1, j);
    }
  }

  lemma {:induction false} HalfTurns(w: nat, n: nat)
    requires n > 0
    ensures Leftover(w, n) == if Leftover(w, 2 * n) < n then Leftover(w, 2 * n) else Leftover(w, 2 * n) - n
  {
    if w >= 2 * n {
      HalfTurns(w - 2 * n, n);
      assert Leftover(w, n) == Leftover(w - n, n) == Leftover(w - 2 * n, n);
    }
  }

  lemma OneMoreLeftover(w: nat, m: nat)
    requires m > 1
    ensures Leftover(w + 1, m) == if Leftover(w, m) + 1 == m then 0 else Leftover(w, m) + 1
  {
    LeftoverSum(w, 1, m);
  }

  /** With every other node warm and in view, so that only the local row is not, the global plane covers
      all rows from every cursor if and only if the warm list is not a whole number of windows and the
      rows are not a whole number of turns. */
  lemma LocalRowCoversIff(rows: seq<Peer>, n: nat, w: nat)
    requires DistinctPeers(rows) && 0 < n < w && |rows| == w + 1
    ensures GlobalCovers(rows, n, w) <==> w % n != 0 && (w + 1) % (2 * n) != 0
  {
    LeftoverIsModulo(w, n);
    LeftoverIsModulo(w + 1, 2 * n);
    HalfTurns(w, n);
    OneMoreLeftover(w, 2 * n);
    if n == 1 {
      forall k ensures rows[w] !in GlobalWindows(rows, 0, n, w, k) {
        FarWindowsUnread(rows, 0, n, w, k, w);
      }
      assert !RowReached(rows, n, w, 0, w);
    } else if w % n != 0 && (w + 1) % (2 * n) != 0 {
      GlobalCoversWhen(rows, n, w);
    } else {
      GlobalStarvesWhen(rows, n, w);
    }
  }

  /** With a fanout of one, the view-scoped plane takes every second warm peer. */
  lemma TakesEverySecond(s: nat, w: nat)
    requires s < w && 1 < w
    ensures Advance(Advance(s, 1, w), 1, w + 1) % w == Land(s + 2, w)
  {
    AdvanceIs(s, 1, w);
    var c := Advance(s, 1, w);
    AdvanceIs(c, 1, w + 1);
    WrapIsMod(c + 1, w);
  }

  lemma {:induction false} SecondPeerUnread(warm: seq<Peer>, cursor: nat, k: nat)
    requires DistinctPeers(warm) && |warm| > 1 && |warm| % 2 == 0 && cursor % |warm| % 2 == 0
    ensures warm[1] !in WarmWindows(warm, cursor, 1, |warm| + 1, k)
    decreases k
  {
    if k > 0 {
      var w := |warm|;
      var s := cursor % w;
      InWindowIff(warm, s, 1, 1);
      TakesEverySecond(s, w);
      SecondPeerUnread(warm, Advance(Advance(s, 1, w), 1, w + 1), k - 1);
    }
  }

  /** How often the cursor passes the end of the list before it reads the warm peer at `q`. */
  function EndsPassed(s: nat, q: nat): nat {
    if s % 2 != q % 2 then 1 else if s <= q then 0 else 2
  }

  lemma ComesNearer(s: nat, q: nat, w: nat)
    requires w % 2 == 1 && s < w && q < w && s != q
    ensures s + 2 < w ==> EndsPassed(s + 2, q) <= EndsPassed(s, q)
    ensures s + 2 >= w ==> EndsPassed(s + 2 - w, q) < EndsPassed(s, q)
  {
  }

  lemma {:induction false} ReadsOneByOne(warm: seq<Peer>, cursor: nat, q: nat) returns (k: nat)
    requires DistinctPeers(warm) && |warm| % 2 == 1 && q < |warm| && 1 < |warm|
    ensures warm[q] in WarmWindows(warm, cursor, 1, |warm| + 1, k)
    decreases EndsPassed(cursor % |warm|, q), |warm| - cursor % |warm|
  {
    var w := |warm|;
    var s := cursor % w;
    InWindowIff(warm, s, q, 1);
    if s == q {
      k := 1;
    } else {
      TakesEverySecond(s, w);
      ComesNearer(s, q, w);
      var rest := ReadsOneByOne(warm, Advance(Advance(s, 1, w), 1, w + 1), q);
      k := rest + 1;
    }
  }

  lemma SingleCoversIff(warm: seq<Peer>)
    requires DistinctPeers(warm) && 1 < |warm|
    ensures WarmCovers(warm, 1, |warm| + 1) <==> |warm| % 2 != 0
  {
    var w, u := |warm|, |warm| + 1;
    if w % 2 == 0 {
      QuotientUnique(0, w, 0, 0);
      forall k ensures warm[1] !in WarmWindows(warm, 0, 1, u, k) {
        SecondPeerUnread(warm, 0, k);
      }
      assert !WarmPeerReached(warm, 1, u, 0, 1);
    } else {
      forall cursor: nat, q | 0 <= q < w ensures WarmPeerReached(warm, 1, u, cursor, q) {
        var k := ReadsOneByOne(warm, cursor, q);
      }
    }
  }

  lemma TurnsCoverIff(warm: seq<Peer>, n: nat)
    requires DistinctPeers(warm) && 1 < n < |warm|
    ensures WarmCovers(warm, n, |warm| + 1) <==> |warm| % (2 * n) != 0 && (|warm| + 1) % (2 * n) != 0
  {
    var w, u := |warm|, |warm| + 1;
    LeftoverIsModulo(w, 2 * n);
    LeftoverIsModulo(u, 2 * n);
    OneMoreLeftover(w, 2 * n);
    if w % (2 * n) == 0 {
      WarmStarves(warm, n, 0, 0);
    } else if u % (2 * n) == 0 {
      WarmStarves(warm, n, n, n);
    } else {
      forall cursor: nat, q | 0 <= q < w ensures WarmPeerReached(warm, n, u, cursor, q) {
        var k := ReadsWarmPeers(Advance(cursor % w, n, w), q, n, w, u);
        WarmReadIff(warm, cursor, n, u, k, q);
      }
    }
  }

  /** And the view-scoped plane covers the warm list if and only if that list is no whole number of turns,
      and, for a fanout of more than one, neither are the rows. */
  lemma WarmCoversIff(warm: seq<Peer>, n: nat)
    requires DistinctPeers(warm) && 0 < n < |warm|
    ensures WarmCovers(warm, n, |warm| + 1) <==>
              |warm| % (2 * n) != 0 && (n == 1 || (|warm| + 1) % (2 * n) != 0)
  {
    if n == 1 {
      SingleCoversIff(warm);
    } else {
      TurnsCoverIff(warm, n);
    }
  }

  lemma WarmStarves(warm: seq<Peer>, n: nat, c: nat, q: nat)
    requires DistinctPeers(warm) && 1 < n < |warm| && c == q
    requires (c == 0 && Leftover(|warm|, 2 * n) == 0) || (c == n && Leftover(|warm| + 1, 2 * n) == 0)
    ensures !WarmCovers(warm, n, |warm| + 1)
  {
    var w, u := |warm|, |warm| + 1;
    var cursor := CursorFor(c, n, w);
    forall k ensures warm[q] !in WarmWindows(warm, cursor, n, u, k) {
      if c == 0 {
        FirstWarmUnread(c, n, w, u, k);
      } else {
        SecondWarmUnread(c, n, w, u, k);
      }
      WarmReadIff(warm, cursor, n, u, k, q);
    }
    assert !WarmPeerReached(warm, n, u, cursor, q);
  }

  // ----- Sizes a turn apart -----

  /** Every row is read from every start. */
  ghost predicate AllRead(n: nat, w: nat, u: nat)
    requires Sizes(n, w, u)
  {
    forall c: nat, j: nat :: c < w && j < u ==> IsRead(c, j, n, w, u)
  }

  ghost predicate IsRead(c: nat, j: nat, n: nat, w: nat, u: nat)
    requires Sizes(n, w, u) && c < w
  {
    exists k: nat :: ReadWithin(c, j, n, w, u, k)
  }

  lemma ReadAfterStep(c: nat, j: nat, n: nat, w: nat, u: nat)
    requires Sizes(n, w, u) && c < w && IsRead(NextStart(c, n, w, u), j, n, w, u)
    ensures IsRead(c, j, n, w, u)
  {
    var k: nat :| ReadWithin(NextStart(c, n, w, u), j, n, w, u, k);
    assert ReadWithin(c, j, n, w, u, k + 1);
  }

  lemma ReadNow(c: nat, j: nat, n: nat, w: nat, u: nat)
    requires Sizes(n, w, u) && c < w && Reads(c, j, n, u)
    ensures IsRead(c, j, n, w, u)
  {
    assert ReadWithin(c, j, n, w, u, 1);
  }

  /** One turn on in a list one turn longer, a step is the same, but that a new round starts a turn
      back. */
  lemma StepsAlike(c: nat, n: nat, w: nat, u: nat)
    requires Sizes(n, w, u) && w >= 2 * n && c < w
    ensures var v := NextStart(c, n, w, u);
            NextStart(c + 2 * n, n, w + 2 * n, u + 2 * n) == if c + 2 * n < w then v + 2 * n else v
    ensures c < 2 * n ==> NextStart(c, n, w + 2 * n, u + 2 * n) == c + 2 * n
    ensures c + 2 * n >= w ==> NextStart(c, n, w, u) < 2 * n
  {
  }

  /** A row read in the shorter list is read in the longer one, a turn on. */
  lemma {:induction false} Lift(c: nat, j: nat, n: nat, w: nat, u: nat, k: nat)
    requires Sizes(n, w, u) && w >= 2 * n && c < w && j < u && ReadWithin(c, j, n, w, u, k)
    ensures IsRead(c + 2 * n, j + 2 * n, n, w + 2 * n, u + 2 * n)
    decreases k
  {
    var v, m, x := NextStart(c, n, w, u), w + 2 * n, u + 2 * n;
    StepsAlike(c, n, w, u);
    if c <= j < c + n {
      ReadNow(c + 2 * n, j + 2 * n, n, m, x);
    } else if Reads(c, j, n, u) {
      assert Reads(v, j + 2 * n, n, x);
      ReadNow(v, j + 2 * n, n, m, x);
      ReadAfterStep(c + 2 * n, j + 2 * n, n, m, x);
    } else {
      Lift(v, j, n, w, u, k - 1);
      if c + 2 * n >= w {
        StepsAlike(v, n, w, u);
        ReadAfterStep(v, j + 2 * n, n, m, x);
      }
      ReadAfterStep(c + 2 * n, j + 2 * n, n, m, x);
    }
  }

  /** Where the longer list stands when the shorter stands at `c`, if rounds start together. */
  function Beside(c: nat, n: nat): nat {
    if c < 2 * n then c else c + 2 * n
  }

  /** A row of the first turn is read alike in both. */
  lemma {:induction false} LiftFirst(c: nat, j: nat, n: nat, w: nat, u: nat, k: nat)
    requires Sizes(n, w, u) && w >= 2 * n && c < w && j < 2 * n && ReadWithin(c, j, n, w, u, k)
    ensures IsRead(Beside(c, n), j, n, w + 2 * n, u + 2 * n)
    decreases k
  {
    var v, m, x := NextStart(c, n, w, u), w + 2 * n, u + 2 * n;
    StepsAlike(c, n, w, u);
    if c < 2 * n && c <= j < c + n {
      ReadNow(c, j, n, m, x);
    } else {
      if Reads(c, j, n, u) {
        ReadNow(c + 2 * n, j, n, m, x);
      } else {
        LiftFirst(v, j, n, w, u, k - 1);
        ReadAfterStep(c + 2 * n, j, n, m, x);
      }
      if c < 2 * n {
        ReadAfterStep(c, j, n, m, x);
      }
    }
  }

  /** And the other way. */
  lemma {:induction false} DropFirst(c: nat, j: nat, n: nat, w: nat, u: nat, k: nat)
    requires Sizes(n, w, u) && w >= 2 * n && c < w && j < 2 * n
    requires ReadWithin(Beside(c, n), j, n, w + 2 * n, u + 2 * n, k)
    ensures IsRead(c, j, n, w, u)
    decreases k
  {
    var v, m, x := NextStart(c, n, w, u), w + 2 * n, u + 2 * n;
    StepsAlike(c, n, w, u);
    if Reads(c, j, n, u) {
      ReadNow(c, j, n, w, u);
    } else {
      var rest := if c < 2 * n then k - 2 else k - 1;
      assert ReadWithin(Beside(v, n), j, n, m, x, rest);
      DropFirst(v, j, n, w, u, rest);
      ReadAfterStep(c, j, n, w, u);
    }
  }

  /** A later row of the shorter list is read when the row a turn on is read in the longer. */
  lemma {:induction false} Drop(c: nat, j: nat, n: nat, w: nat, u: nat, k: nat)
    requires Sizes(n, w, u) && w >= 2 * n && c < w && 2 * n <= j < u
    requires ReadWithin(c + 2 * n, j + 2 * n, n, w + 2 * n, u + 2 * n, k)
    ensures IsRead(c, j, n, w, u)
    decreases k
  {
    var v, m, x := NextStart(c, n, w, u), w + 2 * n, u + 2 * n;
    StepsAlike(c, n, w, u);
    if Reads(c, j, n, u) {
      ReadNow(c, j, n, w, u);
    } else {
      if c + 2 * n >= w {
        StepsAlike(v, n, w, u);
        assert ReadWithin(v + 2 * n, j + 2 * n, n, m, x, k - 2);
        Drop(v, j, n, w, u, k - 2);
      } else {
        Drop(v, j, n, w, u, k - 1);
      }
      ReadAfterStep(c, j, n, w, u);
    }
  }

  lemma LongerReads(n: nat, w: nat, u: nat, c: nat, j: nat)
    requires Sizes(n, w, u) && w >= 2 * n && AllRead(n, w, u) && c < w + 2 * n && j < u + 2 * n
    ensures IsRead(c, j, n, w + 2 * n, u + 2 * n)
  {
    var m, x := w + 2 * n, u + 2 * n;
    var a := if c < 2 * n then c else c - 2 * n;
    StepsAlike(a, n, w, u);
    if j >= 2 * n {
      assert IsRead(a, j - 2 * n, n, w, u);
      var k: nat :| ReadWithin(a, j - 2 * n, n, w, u, k);
      Lift(a, j - 2 * n, n, w, u, k);
      if c < 2 * n {
        ReadAfterStep(c, j, n, m, x);
      }
    } else if c == Beside(a, n) {
      assert IsRead(a, j, n, w, u);
      var k: nat :| ReadWithin(a, j, n, w, u, k);
      LiftFirst(a, j, n, w, u, k);
    } else {
      var v := NextStart(a, n, w, u);
      assert IsRead(v, j, n, w, u);
      var k: nat :| ReadWithin(v, j, n, w, u, k);
      LiftFirst(v, j, n, w, u, k);
      ReadAfterStep(c, j, n, m, x);
    }
  }

  lemma ShorterReads(n: nat, w: nat, u: nat, c: nat, j: nat)
    requires Sizes(n, w, u) && w >= 2 * n && AllRead(n, w + 2 * n, u + 2 * n) && c < w && j < u
    ensures IsRead(c, j, n, w, u)
  {
    var m, x := w + 2 * n, u + 2 * n;
    if j < 2 * n {
      assert IsRead(Beside(c, n), j, n, m, x);
      var k: nat :| ReadWithin(Beside(c, n), j, n, m, x, k);
      DropFirst(c, j, n, w, u, k);
    } else {
      assert IsRead(c + 2 * n, j + 2 * n, n, m, x);
      var k: nat :| ReadWithin(c + 2 * n, j + 2 * n, n, m, x, k);
      Drop(c, j, n, w, u, k);
    }
  }

  /** A turn more or less in both lists makes no difference: from two turns on, whether all rows are read
      is decided by the fanout, the rows that are not warm, and where in a turn the warm list ends. */
  lemma CoverageRepeats(n: nat, w: nat, u: nat)
    requires Sizes(n, w, u) && w >= 2 * n
    ensures AllRead(n, w, u) <==> AllRead(n, w + 2 * n, u + 2 * n)
  {
    var m, x := w + 2 * n, u + 2 * n;
    if AllRead(n, w, u) {
      forall c: nat, j: nat | c < m && j < x ensures IsRead(c, j, n, m, x) {
        LongerReads(n, w, u, c, j);
      }
    }
    if AllRead(n, w + 2 * n, u + 2 * n) {
      forall c: nat, j: nat | c < w && j < u ensures IsRead(c, j, n, w, u) {
        ShorterReads(n, w, u, c, j);
      }
    }
  }

  /** The rows of any list are covered exactly when all are read for its size. */
  lemma CoversIffAllRead(rows: seq<Peer>, n: nat, w: nat)
    requires DistinctPeers(rows) && Sizes(n, w, |rows|)
    ensures GlobalCovers(rows, n, w) <==> AllRead(n, w, |rows|)
  {
    var u := |rows|;
    if GlobalCovers(rows, n, w) {
      forall c: nat, j: nat | c < w && j < u ensures IsRead(c, j, n, w, u) {
        var cursor := CursorFor(c, n, w);
        assert RowReached(rows, n, w, cursor, j);
        var k :| rows[j] in GlobalWindows(rows, cursor, n, w, k);
        GlobalReadIff(rows, cursor, n, w, k, j);
      }
    }
    if AllRead(n, w, u) {
      forall cursor: nat, j | 0 <= j < u ensures RowReached(rows, n, w, cursor, j) {
        var c := Advance(cursor % w, n, w);
        assert IsRead(c, j, n, w, u);
        var k: nat :| ReadWithin(c, j, n, w, u, k);
        GlobalReadIff(rows, cursor, n, w, k, j);
      }
    }
  }

  // ----- The sizes the topology uses -----

  const WARM_SET_MULTIPLIER := 4
  const WARM_SET_MAX := 32

  /** How many of the in-view peers are kept warm. The bounds of the clamp must be in order. */
  function WarmTarget(inView: nat, fanout: nat): nat
    requires fanout <= WARM_SET_MAX
  {
    if fanout == 0 then inView
    else
      var wanted := WARM_SET_MULTIPLIER * fanout;
      var bounded := if wanted > WARM_SET_MAX then WARM_SET_MAX else wanted;
      if inView < bounded then inView else bounded
  }

  /** For every fanout up to eight, once more peers are in view than are kept warm the global plane does
      not cover all rows. */
  lemma CappedWarmSetStarves(rows: seq<Peer>, n: nat, inView: nat)
    requires DistinctPeers(rows) && 0 < n <= 8 && WarmTarget(inView, n) < inView < |rows|
    ensures WarmTarget(inView, n) == 4 * n
    ensures !GlobalCovers(rows, n, 4 * n)
  {
    var w, u := 4 * n, |rows|;
    if u < w + n {
      QuotientUnique(w, n, 4, 0);
      GlobalStarvesWhen(rows, n, w);
    } else {
      forall k ensures rows[u - 1] !in GlobalWindows(rows, 0, n, w, k) {
        FarWindowsUnread(rows, 0, n, w, k, u - 1);
      }
      assert !RowReached(rows, n, w, 0, u - 1);
    }
  }

  /** A cluster of 26 nodes in one view with the default fanout: 20 peers are warm, and over any number of
      busy ticks, from any cursor, the last two rows are sent no global message. */
  lemma LargeClusterExample(ticks: seq<Peers>, population: seq<Peer>, cursor: nat)
    requires DistinctPeers(population) && |population| == 26
    requires forall i :: 0 <= i < |ticks| ==>
               |ticks[i].warm| == WarmTarget(25, DEFAULT_FANOUT) && multiset(ticks[i].unscoped) == multiset(population)
    ensures WarmTarget(25, DEFAULT_FANOUT) == 20 && |ById(population)| == 26
    ensures var global := PicksOf(ticks, Some(DEFAULT_FANOUT), cursor).global;
            ById(population)[24] !in global && ById(population)[25] !in global
  {
    FarRowsUnread(ticks, population, DEFAULT_FANOUT, 20, cursor, 24);
    FarRowsUnread(ticks, population, DEFAULT_FANOUT, 20, cursor, 25);
  }

  lemma {:induction false} FixedWindow(rows: seq<Peer>, cursor: nat, k: nat, j: nat)
    requires DistinctPeers(rows) && |rows| == 11 && j < 11 && cursor in {0, 10}
    ensures rows[j] in GlobalWindows(rows, cursor, 5, 10, k) ==> 5 <= j < 10
    decreases k
  {
    if k > 0 {
      assert cursor % 10 == 0;
      AdvanceIs(0, 5, 10);
      AdvanceIs(5, 5, 11);
      InWindowIff(rows, 5, j, 5);
      FixedWindow(rows, 10, k - 1, j);
    }
  }

  /** Eleven nodes in one view with the default fanout: from cursor 0 every busy tick sends global messages
      to the same five rows. */
  lemma SmallClusterExample(ticks: seq<Peers>, population: seq<Peer>, j: nat)
    requires DistinctPeers(population) && |population| == 11 && j < 11
    requires forall i :: 0 <= i < |ticks| ==>
               |ticks[i].warm| == WarmTarget(10, DEFAULT_FANOUT) && multiset(ticks[i].unscoped) == multiset(population)
    ensures |ById(population)| == 11
    ensures ById(population)[j] in PicksOf(ticks, Some(DEFAULT_FANOUT), 0).global ==> 5 <= j < 10
  {
    GlobalTicks(ticks, population, DEFAULT_FANOUT, 10, 0);
    RingIsDistinct(population);
    FixedWindow(ById(population), 0, |ticks|, j);
  }
}
