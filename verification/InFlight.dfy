/**
 * The window of recently sent messages that the simulator shows (backend/simulator/cluster.go): a slice over a
 * growing array, filtered in place and then cut to its last entries. With a clock that never runs backwards it
 * always shows exactly the last 256 messages of the whole send history that have not expired.
 */
module InFlightWindow {

  const TTL: nat := 150_000_000     // nanoseconds a message stays visible
  const MAX_IN_FLIGHT: nat := 256

  /** One arrow on the screen. The clock reading is only used to expire it. */
  datatype Shown = Shown(sender: int, receiver: int, kind: string, term: nat, sentAt: int)

  predicate IsLive(m: Shown, now: int) {
    now - m.sentAt < TTL
  }

  function Live(s: seq<Shown>, now: int): (r: seq<Shown>)
    ensures |r| <= |s|
  {
    if s == [] then []
    else
      var rest := Live(s[..|s| - 1], now);
      if IsLive(s[|s| - 1], now) then rest + [s[|s| - 1]] else rest
  }

  lemma LiveSnoc(s: seq<Shown>, i: nat, now: int)
    requires i < |s|
    ensures Live(s[..i + 1], now) == Live(s[..i], now) + (if IsLive(s[i], now) then [s[i]] else [])
  {
    assert s[..i + 1][..i] == s[..i];
  }

  lemma NothingLive(now: int)
    ensures Live([], now) == []
  {}

  function LastOf<X>(s: seq<X>, k: nat): (r: seq<X>)
    ensures |r| == (if |s| > k then k else |s|)
  {
    if |s| > k then s[|s| - k..] else s
  }

  /** What pruning at time `now` leaves of a window. */
  function Pruned(s: seq<Shown>, now: int): seq<Shown> {
    LastOf(Live(s, now), MAX_IN_FLIGHT)
  }

  // ---------------------------------------------------------------- the slice

  /** A Go slice: positions lo..hi of a backing array that append may fill in place or replace by a larger one. */
  class Window {
    var buf: array<Shown>
    var lo: nat
    var hi: nat

    ghost predicate Valid()
      reads this
    {
      lo <= hi <= buf.Length
    }

    ghost function Contents(): seq<Shown>
      reads this, buf
      requires Valid()
    {
      buf[lo..hi]
    }

    constructor ()
      ensures Valid() && Contents() == [] && fresh(buf)
    {
      buf, lo, hi := new Shown[0], 0, 0;
    }

    /** Go's append: in place while there is capacity, else into a new array twice the size. */
    method Append(m: Shown)
      requires Valid()
      modifies this, buf
      ensures Valid() && (buf == old(buf) || fresh(buf))
      ensures Contents() == old(Contents()) + [m]
    {
      if hi == buf.Length {
        var len := hi - lo;
        var bigger := new Shown[2 * len + 1](_ => m);
        for i := 0 to len
          modifies bigger
          invariant bigger[..i] == old(Contents())[..i]
        {
          bigger[i] := buf[lo + i];
        }
        buf, lo, hi := bigger, 0, len;
      }
      buf[hi] := m;
      hi := hi + 1;
    }

    /**
     * The aliasing filter of pruneInFlightLocked. `live` starts as the empty prefix of the same array and grows
     * behind the reader, so what is still to be read is never overwritten.
     */
    method KeepLive(now: int) returns (live: nat)
      requires Valid()
      modifies buf
      ensures lo <= live <= hi && buf[lo..live] == Live(old(Contents()), now)
    {
      hide Live, IsLive;
      var all, first := buf, lo;
      ghost var before := Contents();
      ghost var kept: seq<Shown> := [];
      live := first;
      NothingLive(now);
      assert before[..0] == [];
      for k := first to hi
        modifies all
        invariant first <= live <= k && live - first == |kept|
        invariant forall i | k <= i < hi :: all[i] == before[i - first]
        invariant forall i | first <= i < live :: all[i] == kept[i - first]
        invariant kept == Live(before[..k - first], now)
      {
        LiveSnoc(before, k - first, now);
        if IsLive(all[k], now) {
          kept := kept + [all[k]];
          all[live] := all[k];
          live := live + 1;
        }
      }
      assert before[..hi - first] == before && all[first..live] == kept;
    }

    /** Drop the expired messages, then keep only the tail. */
    method Prune(now: int)
      requires Valid()
      modifies this`lo, this`hi, buf
      ensures Valid() && buf == old(buf)
      ensures Contents() == Pruned(old(Contents()), now)
    {
      hi := KeepLive(now);
      if hi - lo > MAX_IN_FLIGHT {
        lo := hi - MAX_IN_FLIGHT;
      }
    }

    /** What route does to the window: record the message, then prune at a clock reading taken afterwards. */
    method Note(m: Shown, now: int)
      requires Valid()
      modifies this, buf
      ensures Valid() && (buf == old(buf) || fresh(buf))
      ensures Contents() == Pruned(old(Contents()) + [m], now)
    {
      Append(m);
      Prune(now);
    }

    /** What buildSnapshot does: prune, then hand out a copy. */
    method Snapshot(now: int) returns (copy: seq<Shown>)
      requires Valid()
      modifies this`lo, this`hi, buf
      ensures Valid() && buf == old(buf)
      ensures Contents() == Pruned(old(Contents()), now) && copy == Contents()
    {
      Prune(now);
      copy := buf[lo..hi];
    }
  }

  // ---------------------------------------------------------------- sequences of calls

  datatype Call = Route(m: Shown, now: int) | Look(now: int)

  function After(calls: seq<Call>): seq<Shown> {
    if calls == [] then []
    else
      var before, last := After(calls[..|calls| - 1]), calls[|calls| - 1];
      if last.Route? then Pruned(before + [last.m], last.now) else Pruned(before, last.now)
  }

  /** Every message ever routed, in order. */
  function History(calls: seq<Call>): seq<Shown> {
    if calls == [] then []
    else
      var before, last := History(calls[..|calls| - 1]), calls[|calls| - 1];
      if last.Route? then before + [last.m] else before
  }

  /** Every reading of the clock is at least the one before it, within a call and between calls. */
  predicate ClockOrdered(calls: seq<Call>) {
    && (forall i | 0 <= i < |calls| && calls[i].Route? :: calls[i].m.sentAt <= calls[i].now)
    && (forall i, j | 0 <= i < j < |calls| :: calls[i].now <= if calls[j].Route? then calls[j].m.sentAt else calls[j].now)
  }

  predicate SentInOrder(s: seq<Shown>) {
    forall i, j | 0 <= i < j < |s| :: s[i].sentAt <= s[j].sentAt
  }

  predicate SentBy(s: seq<Shown>, now: int) {
    forall i | 0 <= i < |s| :: s[i].sentAt <= now
  }

  ghost predicate Suffix<X>(s: seq<X>, whole: seq<X>) {
    |s| <= |whole| && s == whole[|whole| - |s|..]
  }

  /** The window is a tail of the history that is long enough, or misses only expired records. */
  ghost predicate ShowsTail(window: seq<Shown>, history: seq<Shown>, now: int) {
    && Suffix(window, history)
    && (|window| >= MAX_IN_FLIGHT || forall i | 0 <= i < |history| - |window| :: !IsLive(history[i], now))
  }

  /** From index `k` on, and only there, the records are live. */
  ghost predicate LiveFrom(s: seq<Shown>, now: int, k: nat) {
    && k <= |s| && Live(s, now) == s[k..]
    && forall i | 0 <= i < |s| :: IsLive(s[i], now) <==> k <= i
  }

  /** In a sequence sent in order, the live records are exactly a suffix. */
  lemma {:induction false} LiveIsSuffix(s: seq<Shown>, now: int) returns (k: nat)
    requires SentInOrder(s)
    ensures LiveFrom(s, now, k)
  {
    if s == [] {
      k := 0;
    } else {
      var rest, last := s[..|s| - 1], s[|s| - 1];
      k := LiveIsSuffix(rest, now);
      LiveSnoc(s, |s| - 1, now);
      assert s[..|s|] == s;
      if IsLive(last, now) {
        LiveLonger(rest, last, now, k);
      } else {
        NoneLive(s, now, k);
        k := |s|;
      }
    }
  }

  lemma NoneLive(s: seq<Shown>, now: int, k: nat)
    requires s != [] && SentInOrder(s) && !IsLive(s[|s| - 1], now)
    requires LiveFrom(s[..|s| - 1], now, k) && Live(s, now) == Live(s[..|s| - 1], now)
    ensures LiveFrom(s, now, |s|)
  {
    AllExpired(s, now);
    hide Live, IsLive, SentInOrder;
    LiveFromOnce(s[..|s| - 1], now, k, |s| - 1);
  }

  lemma LiveLonger(rest: seq<Shown>, last: Shown, now: int, k: nat)
    requires LiveFrom(rest, now, k) && IsLive(last, now) && Live(rest + [last], now) == Live(rest, now) + [last]
    ensures LiveFrom(rest + [last], now, k)
  {
    hide Live, IsLive;
    assert (rest + [last])[k..] == rest[k..] + [last];
  }

  lemma AllExpired(s: seq<Shown>, now: int)
    requires SentInOrder(s) && s != [] && !IsLive(s[|s| - 1], now)
    ensures forall i | 0 <= i < |s| :: !IsLive(s[i], now)
  {}

  lemma LiveFromOnce(s: seq<Shown>, now: int, k: nat, l: nat)
    requires LiveFrom(s, now, k) && l <= |s|
    requires forall i | 0 <= i < |s| :: IsLive(s[i], now) <==> l <= i
    ensures k == l
  {
    hide Live, IsLive;
    if k < |s| { assert IsLive(s[k], now); }
    if l < |s| { assert IsLive(s[l], now); }
  }

  /** Pruning a tail that already holds everything the whole would show gives what pruning the whole gives. */
  lemma PrunedTail(s: seq<Shown>, whole: seq<Shown>, now: int)
    requires SentInOrder(whole) && ShowsTail(s, whole, now)
    ensures Pruned(s, now) == Pruned(whole, now)
  {
    var d := |whole| - |s|;
    assert forall i | 0 <= i < |s| :: s[i] == whole[d + i];
    var k := LiveIsSuffix(s, now);
    var l := LiveIsSuffix(whole, now);
    hide Live, IsLive, SentInOrder;
    LiveFromOnce(s, now, k, if l < d then 0 else l - d);
    if l < d { assert IsLive(whole[l], now); }
    SameTail(s, whole, k, l);
    hide LastOf, Suffix;
  }

  lemma SameTail<X>(s: seq<X>, whole: seq<X>, k: nat, l: nat)
    requires Suffix(s, whole) && k <= |s| && l <= |whole|
    requires var d := |whole| - |s|; if l < d then k == 0 && |s| >= MAX_IN_FLIGHT else k == l - d
    ensures LastOf(s[k..], MAX_IN_FLIGHT) == LastOf(whole[l..], MAX_IN_FLIGHT)
  {
    var d := |whole| - |s|;
    if l >= d { assert s[k..] == whole[l..]; }
  }

  function LastReading(calls: seq<Call>): int
    requires calls != []
  {
    calls[|calls| - 1].now
  }

  lemma {:induction false} HistoryOrdered(calls: seq<Call>)
    requires ClockOrdered(calls)
    ensures SentInOrder(History(calls))
    ensures calls != [] ==> SentBy(History(calls), LastReading(calls))
    ensures calls == [] ==> History(calls) == []
  {
    if calls != [] {
      var rest := calls[..|calls| - 1];
      assert ClockOrdered(rest);
      HistoryOrdered(rest);
      assert rest != [] ==> LastReading(rest) == calls[|calls| - 2].now;
    }
  }

  lemma PrunedShowsTail(history: seq<Shown>, now: int)
    requires SentInOrder(history)
    ensures ShowsTail(Pruned(history, now), history, now)
  {
    var k := LiveIsSuffix(history, now);
    hide Live;
  }

  lemma ShowsTailLater(window: seq<Shown>, history: seq<Shown>, now: int, later: int)
    requires ShowsTail(window, history, now) && now <= later
    ensures ShowsTail(window, history, later)
  {
    hide Suffix;
  }

  lemma PrunedMore(window: seq<Shown>, history: seq<Shown>, more: seq<Shown>, now: int)
    requires ShowsTail(window, history, now) && SentInOrder(history + more)
    ensures Pruned(window + more, now) == Pruned(history + more, now)
  {
    hide Live, LastOf;
    assert Suffix(window + more, history + more);
    PrunedTail(window + more, history + more, now);
  }

  /**
   * After any sequence of route and snapshot calls with a clock that never runs backwards, the window is the
   * last 256 of the messages in the whole send history that are live at the last reading, in order.
   */
  lemma {:induction false} WindowShowsHistory(calls: seq<Call>)
    requires ClockOrdered(calls) && calls != []
    ensures After(calls) == LastOf(Live(History(calls), LastReading(calls)), MAX_IN_FLIGHT)
  {
    hide Live, LastOf, Suffix, SentInOrder, IsLive;
    var rest, last, now := calls[..|calls| - 1], calls[|calls| - 1], LastReading(calls);
    HistoryOrdered(calls);
    HistoryOrdered(rest) by { assert ClockOrdered(rest); }
    if rest == [] {
      NothingShown(now);
    } else {
      WindowShowsHistory(rest);
      assert LastReading(rest) == calls[|calls| - 2].now <= now;
      PrunedShowsTail(History(rest), LastReading(rest));
      ShowsTailLater(After(rest), History(rest), LastReading(rest), now);
    }
    hide ShowsTail;
    var more := if last.Route? then [last.m] else [];
    assert After(rest) + [] == After(rest) && History(rest) + [] == History(rest);
    PrunedMore(After(rest), History(rest), more, now);
  }

  lemma NothingShown(now: int)
    ensures ShowsTail([], [], now)
  {}

  /**
   * In other words: the window is the end of the history; it holds at most 256 records, all of them sent less than
   * 150 ms ago, and if it holds fewer than 256 the record before them is older than that.
   */
  lemma WindowExactly(calls: seq<Call>)
    requires ClockOrdered(calls) && calls != []
    ensures var w, h, now := After(calls), History(calls), LastReading(calls);
      && |w| <= |h| && w == h[|h| - |w|..] && |w| <= 256
      && (forall i | 0 <= i < |w| :: now - w[i].sentAt < 150_000_000)
      && (|w| < 256 && |w| < |h| ==> now - h[|h| - |w| - 1].sentAt >= 150_000_000)
  {
    hide After, History, Live, IsLive, SentInOrder, ClockOrdered, LastOf;
    WindowShowsHistory(calls);
    HistoryOrdered(calls);
    var k := LiveIsSuffix(History(calls), LastReading(calls));
    TailExactly(History(calls), LastReading(calls), k);
  }

  lemma TailExactly(h: seq<Shown>, now: int, k: nat)
    requires LiveFrom(h, now, k)
    ensures var w := LastOf(Live(h, now), MAX_IN_FLIGHT);
      && |w| <= |h| && w == h[|h| - |w|..] && |w| <= 256
      && (forall i | 0 <= i < |w| :: now - w[i].sentAt < 150_000_000)
      && (|w| < 256 && |w| < |h| ==> now - h[|h| - |w| - 1].sentAt >= 150_000_000)
  {
    hide Live;
    var w := LastOf(h[k..], MAX_IN_FLIGHT);
    var d := |h| - |w|;
    assert k <= d;
    forall i | 0 <= i < |w|
      ensures w[i] == h[d + i] && now - w[i].sentAt < 150_000_000
    {
      assert IsLive(h[d + i], now);
    }
    if |w| < 256 && |w| < |h| { assert d == k && !IsLive(h[k - 1], now); }
  }

  /** A clock that runs backwards breaks this: what has been dropped as expired would be live again. */
  lemma ClockMustNotRunBack() returns (calls: seq<Call>)
    ensures |calls| == 2 && calls[1].now < calls[0].now
    ensures After(calls) != LastOf(Live(History(calls), LastReading(calls)), MAX_IN_FLIGHT)
  {
    var first := Route(Shown(0, 1, "", 1, 0), TTL);
    calls := [first, Look(0)];
    assert calls[..1] == [first] && calls[..1][..0] == [];
    assert After([first]) == Pruned([first.m], TTL) == [];
    assert [first.m][..0] == [] && Live([first.m], 0) == [first.m];
  }
}
