/** SpeechGate (ttsbot/recording/vad.py): per-packet voice decisions turned into runs of speech. */
module SpeechGates {
  import opened Bytes

  datatype GateSettings = GateSettings(preroll: nat, startWindow: nat, startNeeded: nat, hangover: nat, stopMax: nat) {
    predicate Valid() { preroll > 0 && startWindow > 0 && hangover > 0 }
    function Memory(): nat { if startWindow >= hangover then startWindow else hangover }
  }

  function Ones(s: seq<bool>): nat {
    if s == [] then 0 else (if s[0] then 1 else 0) + Ones(s[1..])
  }

  /** The last n elements; deque(maxlen=n) after an append, and list[-n:]. */
  function Tail<T>(s: seq<T>, n: nat): (r: seq<T>)
    ensures |r| == if |s| < n then |s| else n
  {
    if |s| <= n then s else s[|s| - n..]
  }

  lemma MemoryCovers(g: GateSettings)
    ensures g.startWindow <= g.Memory() && g.hangover <= g.Memory()
  {}

  // ---- What the verdicts decide

  /** The part of the gate that decides: the verdicts it remembers, and whether it is open. */
  datatype Gate = Gate(recent: seq<bool>, speaking: bool)

  const SHUT := Gate([], false)

  function Hear(g: GateSettings, s: Gate, isSpeech: bool): Gate {
    var recent := Tail(s.recent + [isSpeech], g.Memory());
    if s.speaking && Ones(Tail(recent, g.hangover)) <= g.stopMax then SHUT
    else Gate(recent, s.speaking || Ones(Tail(recent, g.startWindow)) >= g.startNeeded)
  }

  /** A run of the gate since it was made or reset. */
  function HearAll(g: GateSettings, verdicts: seq<bool>): Gate {
    if verdicts == [] then SHUT else Hear(g, HearAll(g, verdicts[..|verdicts| - 1]), verdicts[|verdicts| - 1])
  }

  // ---- Runs with resets; a reset at k comes after k packets

  /** The gate after these verdicts, and after the reset that follows them, if one does. */
  function After(g: GateSettings, verdicts: seq<bool>, resets: set<nat>): Gate {
    if |verdicts| in resets || verdicts == [] then SHUT
    else Hear(g, After(g, verdicts[..|verdicts| - 1], resets), verdicts[|verdicts| - 1])
  }

  /** How many packets came before the last close or reset. */
  function Cleared(g: GateSettings, verdicts: seq<bool>, resets: set<nat>): (r: nat)
    ensures r <= |verdicts|
  {
    if |verdicts| in resets || verdicts == [] then |verdicts|
    else if After(g, verdicts[..|verdicts| - 1], resets).speaking && !After(g, verdicts, resets).speaking then |verdicts|
    else Cleared(g, verdicts[..|verdicts| - 1], resets)
  }

  /** How many packets the last of these verdicts has returned. */
  function Returned(g: GateSettings, verdicts: seq<bool>, resets: set<nat>): (r: nat)
    requires verdicts != []
    ensures r <= |verdicts|
  {
    var front, last := verdicts[..|verdicts| - 1], verdicts[|verdicts| - 1];
    var before := After(g, front, resets);
    if before.speaking then 1
    else if Hear(g, before, last).speaking then
      var waiting := |verdicts| - Cleared(g, front, resets);
      if waiting < g.preroll then waiting else g.preroll
    else 0
  }

  /** The packets returned over a run, by number. */
  function Kept(g: GateSettings, verdicts: seq<bool>, resets: set<nat>): seq<nat> {
    if verdicts == [] then []
    else Kept(g, verdicts[..|verdicts| - 1], resets) + Count(|verdicts| - Returned(g, verdicts, resets), |verdicts|)
  }

  lemma AfterPush(g: GateSettings, verdicts: seq<bool>, v: bool, resets: set<nat>)
    requires |verdicts| + 1 !in resets
    ensures var all := verdicts + [v];
      && After(g, all, resets) == Hear(g, After(g, verdicts, resets), v)
      && Cleared(g, all, resets) == (if After(g, verdicts, resets).speaking && !After(g, all, resets).speaking then |all|
                                     else Cleared(g, verdicts, resets))
      && Kept(g, all, resets) == Kept(g, verdicts, resets) + Count(|all| - Returned(g, all, resets), |all|)
      && Returned(g, all, resets) == if After(g, verdicts, resets).speaking then 1
                                     else if !After(g, all, resets).speaking then 0
                                     else if |all| - Cleared(g, verdicts, resets) < g.preroll then |all| - Cleared(g, verdicts, resets)
                                     else g.preroll
  {
    hide Hear, After, Cleared, Kept;
    AfterOne(g, verdicts, v, resets);
    ClearedOne(g, verdicts, v, resets);
    KeptOne(g, verdicts, v, resets);
    assert (verdicts + [v])[..|verdicts|] == verdicts;
  }

  lemma AfterOne(g: GateSettings, verdicts: seq<bool>, v: bool, resets: set<nat>)
    requires |verdicts| + 1 !in resets
    ensures After(g, verdicts + [v], resets) == Hear(g, After(g, verdicts, resets), v)
  {
    hide Hear;
    assert (verdicts + [v])[..|verdicts|] == verdicts;
  }

  lemma ClearedOne(g: GateSettings, verdicts: seq<bool>, v: bool, resets: set<nat>)
    requires |verdicts| + 1 !in resets
    ensures var all := verdicts + [v];
            Cleared(g, all, resets) == if After(g, verdicts, resets).speaking && !After(g, all, resets).speaking then |all|
                                       else Cleared(g, verdicts, resets)
  {
    hide After;
    assert (verdicts + [v])[..|verdicts|] == verdicts;
  }

  lemma KeptOne(g: GateSettings, verdicts: seq<bool>, v: bool, resets: set<nat>)
    ensures var all := verdicts + [v];
            Kept(g, all, resets) == Kept(g, verdicts, resets) + Count(|all| - Returned(g, all, resets), |all|)
  {
    hide Returned, Count;
    assert (verdicts + [v])[..|verdicts|] == verdicts;
  }

  /** A packet that returns m others, by what was cleared before and after it. */
  lemma AfterFeed(g: GateSettings, verdicts: seq<bool>, v: bool, resets: set<nat>, cleared: nat, m: nat)
    requires (forall r <- resets :: r <= |verdicts|) && m <= |verdicts| + 1
    requires var n, before, was := |verdicts| + 1, After(g, verdicts, resets), Cleared(g, verdicts, resets);
             var now := Hear(g, before, v);
             && cleared == (if before.speaking && !now.speaking then n else was)
             && m == if before.speaking then 1 else if !now.speaking then 0 else if n - was < g.preroll then n - was else g.preroll
    ensures var all := verdicts + [v];
      && After(g, all, resets) == Hear(g, After(g, verdicts, resets), v) && Cleared(g, all, resets) == cleared
      && Kept(g, all, resets) == Kept(g, verdicts, resets) + Count(|all| - m, |all|)
  {
    hide After, Hear, Cleared, Kept, Returned;
    AfterPush(g, verdicts, v, resets);
  }

  /** A reset later on changes nothing before it. */
  lemma {:induction false} ResetLater(g: GateSettings, verdicts: seq<bool>, resets: set<nat>, at: nat)
    requires |verdicts| < at
    ensures After(g, verdicts, resets + {at}) == After(g, verdicts, resets)
    ensures Cleared(g, verdicts, resets + {at}) == Cleared(g, verdicts, resets)
    ensures Kept(g, verdicts, resets + {at}) == Kept(g, verdicts, resets)
    decreases |verdicts|
  {
    hide Hear;
    if verdicts != [] { ResetLater(g, verdicts[..|verdicts| - 1], resets, at); }
  }

  lemma KeptSame(g: GateSettings, verdicts: seq<bool>, resets: set<nat>, other: set<nat>)
    requires verdicts != []
    requires var front := verdicts[..|verdicts| - 1];
             && After(g, front, other) == After(g, front, resets) && Cleared(g, front, other) == Cleared(g, front, resets)
             && Kept(g, front, other) == Kept(g, front, resets)
    ensures Kept(g, verdicts, other) == Kept(g, verdicts, resets)
  {
    hide Hear, After, Cleared;
  }

  lemma ResetNow(g: GateSettings, verdicts: seq<bool>, resets: set<nat>)
    ensures var all := resets + {|verdicts|};
      && After(g, verdicts, all) == SHUT && Cleared(g, verdicts, all) == |verdicts|
      && Kept(g, verdicts, all) == Kept(g, verdicts, resets)
  {
    hide Hear;
    if verdicts != [] {
      var front := verdicts[..|verdicts| - 1];
      ResetLater(g, front, resets, |verdicts|);
      KeptSame(g, verdicts, resets, resets + {|verdicts|});
    }
  }

  class SpeechGate<T> {
    const settings: GateSettings
    var ring: seq<T>
    var recent: seq<bool>
    var speaking: bool
    ghost var items: seq<T> // everything fed
    ghost var verdicts: seq<bool>
    ghost var kept: seq<nat> // which of them have been returned
    ghost var cleared: nat // how many were fed when recent was last emptied
    ghost var openedAt: nat // how many were fed when the gate last opened
    ghost var resets: set<nat> // how many were fed at each reset

    ghost predicate Valid()
      reads this
    {
      && Settled() && (forall r <- resets :: r <= |items|)
      && Deciding() == After(settings, verdicts, resets) && cleared == Cleared(settings, verdicts, resets)
      && kept == Kept(settings, verdicts, resets)
    }

    ghost predicate Settled()
      reads this
    {
      && settings.Valid() && |items| == |verdicts| && cleared <= |items|
      && recent == Tail(verdicts[cleared..], settings.Memory())
      && Selection(kept, |items|)
      && if speaking then ring == [] && Open()
         else ring == Tail(items[cleared..], settings.preroll) && AllBelow(kept, |items| - |ring|)
    }

    /** Opened by enough speech; everything since has been kept. */
    ghost predicate Open()
      reads this
    {
      && cleared < openedAt <= |items| == |verdicts|
      && Ones(Tail(verdicts[cleared..openedAt], settings.startWindow)) >= settings.startNeeded
      && EndsWith(kept, Count(openedAt, |items|))
    }

    function Deciding(): Gate
      reads this
    {
      Gate(recent, speaking)
    }

    constructor (s: GateSettings)
      requires s.Valid()
      ensures Valid() && settings == s && Deciding() == SHUT && kept == [] && items == [] && resets == {}
    {
      settings, ring, recent, speaking := s, [], [], false;
      items, verdicts, kept, cleared, openedAt, resets := [], [], [], 0, 0, {};
    }

    /** What was heard before no longer counts. */
    method Reset()
      requires Valid()
      modifies this
      ensures Valid() && Deciding() == SHUT && items == old(items) && kept == old(kept) && verdicts == old(verdicts)
      ensures cleared == |items| && ring == [] && resets == old(resets) + {|items|}
    {
      hide Hear, Kept, Tail, Cleared, After;
      SelectionBelow(kept, |items|);
      ResetNow(settings, verdicts, resets);
      TailOfEmpty<T>(settings.preroll);
      TailOfEmpty<bool>(settings.Memory());
      ring, recent, speaking := [], [], false;
      cleared := |items|;
      resets := resets + {|items|};
    }

    /** The packets to keep, oldest first: always the newest ones of the input, ending with this one. */
    method Feed(item: T, isSpeech: bool) returns (output: seq<T>)
      requires Valid()
      modifies this
      ensures Valid()
      ensures items == old(items) + [item] && verdicts == old(verdicts) + [isSpeech]
      ensures Deciding() == Hear(settings, old(Deciding()), isSpeech)
      ensures |output| <= |items| && output == items[|items| - |output|..]
      ensures kept == old(kept) + Count(|items| - |output|, |items|)
      ensures if old(speaking) then |output| == 1
              else if speaking then output == Tail(items[old(cleared)..], settings.preroll) && openedAt == |items|
              else output == []
      ensures resets == old(resets)
      ensures old(speaking) && speaking ==> openedAt == old(openedAt) && cleared == old(cleared)
      ensures old(speaking) ==> old(cleared) <= |verdicts| && CloseRight(old(cleared))
    {
      hide Tail, Ones, Count, Hear, Kept, Cleared, After, CloseRight;
      HearIs(settings, Deciding(), isSpeech);
      assert |items| == |verdicts|;
      hide Settled, Noted;
      Note(item, isSpeech);
      output := Decide(item);
      AfterFeed(settings, old(verdicts), isSpeech, resets, cleared, |output|);
    }

    /** What the packet just noted decides. */
    method Decide(item: T) returns (output: seq<T>)
      requires Noted(item)
      modifies `speaking, `recent, `cleared, `kept, `ring, `openedAt
      ensures Settled() && |output| <= |items| == |verdicts| && output == items[|items| - |output|..]
      ensures kept == old(kept) + Count(|items| - |output|, |items|)
      ensures Deciding() == if old(speaking) && Ones(Tail(old(recent), settings.hangover)) <= settings.stopMax then SHUT
                            else Gate(old(recent), old(speaking) || Ones(Tail(old(recent), settings.startWindow)) >= settings.startNeeded)
      ensures cleared == (if old(speaking) && !speaking then |items| else old(cleared)) && old(cleared) <= |items|
      ensures if old(speaking) then |output| == 1
              else if speaking then output == Tail(items[old(cleared)..], settings.preroll) && openedAt == |items|
              else output == []
      ensures old(speaking) ==> openedAt == old(openedAt) && CloseRight(old(cleared))
    {
      hide Tail, Ones, Count, CloseRight, Settled;
      assert |items| == |verdicts|;
      hide Noted;
      if speaking {
        output := FeedOpen(item);
      } else {
        output := FeedClosed(item);
      }
    }

    /** As Settled, but the newest packet has only been noted. */
    ghost predicate Noted(item: T)
      reads this
    {
      && settings.Valid() && |items| == |verdicts| > 0 && items[|items| - 1] == item && cleared < |items|
      && recent == Tail(verdicts[cleared..], settings.Memory())
      && Selection(kept, |items| - 1)
      && if speaking then
           && ring == [] && cleared < openedAt < |items|
           && Ones(Tail(verdicts[cleared..openedAt], settings.startWindow)) >= settings.startNeeded
           && EndsWith(kept, Count(openedAt, |items| - 1))
         else ring == Tail(items[cleared..|items| - 1], settings.preroll) && AllBelow(kept, |items| - 1 - |ring|)
    }

    method Note(item: T, isSpeech: bool)
      requires Settled()
      modifies `recent, `items, `verdicts
      ensures Noted(item) && items == old(items) + [item] && verdicts == old(verdicts) + [isSpeech]
      ensures |items| == |verdicts| && cleared < |items|
      ensures recent == Tail(old(recent) + [isSpeech], settings.Memory())
    {
      hide Tail, Ones, EndsWith, Count, Selection, AllBelow;
      SliceKept(items, item, cleared, |items|);
      TailPush(verdicts[cleared..], isSpeech, settings.Memory());
      SliceKept(verdicts, isSpeech, cleared, openedAt);
      recent := Tail(recent + [isSpeech], settings.Memory());
      items, verdicts := items + [item], verdicts + [isSpeech];
      assert (items[..|items| - 1])[cleared..] == items[cleared..|items| - 1];
    }

    /** It closed, if it did, on little speech, and no sooner than the margin. */
    ghost predicate CloseRight(since: nat)
      requires since <= |verdicts|
      reads this
    {
      !speaking ==>
        && Ones(Tail(verdicts[since..], settings.hangover)) <= settings.stopMax
        && (settings.startNeeded > settings.stopMax ==>
              |items| - openedAt >= settings.hangover - settings.startWindow + settings.startNeeded - settings.stopMax)
    }

    method FeedOpen(item: T) returns (output: seq<T>)
      requires Noted(item) && speaking
      modifies `speaking, `recent, `cleared, `kept
      ensures old(cleared) <= |verdicts| == |items| && CloseRight(old(cleared))
      ensures Settled() && |output| == 1 <= |items| && output == items[|items| - |output|..]
      ensures kept == old(kept) + Count(|items| - |output|, |items|)
      ensures Deciding() == if Ones(Tail(old(recent), settings.hangover)) <= settings.stopMax then SHUT else old(Deciding())
      ensures cleared == if speaking then old(cleared) else |items|
    {
      hide Ones, Tail, EndsWith, Selection, Count, AllBelow;
      ghost var heard := verdicts[cleared..];
      SliceOfSlice(verdicts, cleared, openedAt);
      TailOfTail(heard, settings.hangover, settings.Memory());
      if Ones(Tail(recent, settings.hangover)) <= settings.stopMax {
        if settings.startNeeded > settings.stopMax {
          OpenLongEnough(settings, heard, openedAt - cleared);
        }
        speaking := false;
        recent := [];
        cleared := |items|;
        TailOfEmpty<T>(settings.preroll);
        TailOfEmpty<bool>(settings.Memory());
      }
      KeepOne(kept, openedAt, |items| - 1);
      kept := kept + Count(|items| - 1, |items|);
      return [item];
    }

    method FeedClosed(item: T) returns (output: seq<T>)
      requires Noted(item) && !speaking
      modifies `speaking, `ring, `openedAt, `kept
      ensures Settled() && |output| <= |items| && output == items[|items| - |output|..]
      ensures recent == old(recent) && (speaking <==> Ones(Tail(recent, settings.startWindow)) >= settings.startNeeded)
      ensures kept == old(kept) + Count(|items| - |output|, |items|)
      ensures cleared <= |items|
      ensures if speaking then output == Tail(items[cleared..], settings.preroll) && openedAt == |items| else output == []
    {
      MemoryCovers(settings);
      hide Ones, Tail, EndsWith, Selection, AllBelow, Count, GateSettings.Memory;
      ghost var n, was := |items|, |ring|;
      WaitingPush(ring, items, cleared, settings.preroll);
      ring := Tail(ring + [item], settings.preroll);
      TailOfTail(verdicts[cleared..], settings.startWindow, settings.Memory());
      if Ones(Tail(recent, settings.startWindow)) >= settings.startNeeded {
        output := Release(was);
      } else {
        output := [];
        KeepNone(kept, n - 1, n - 1 - was, |ring|);
      }
    }

    /** The gate opens, and the ring is returned. */
    method Release(ghost was: nat) returns (output: seq<T>)
      requires settings.Valid() && was < |items| == |verdicts| && cleared < |items| && 1 <= |ring| <= was + 1
      requires recent == Tail(verdicts[cleared..], settings.Memory()) && ring == Tail(items[cleared..], settings.preroll)
      requires Selection(kept, |items| - 1) && AllBelow(kept, |items| - 1 - was) && !speaking
      requires Ones(Tail(verdicts[cleared..], settings.startWindow)) >= settings.startNeeded
      modifies `speaking, `ring, `openedAt, `kept
      ensures Settled() && speaking && openedAt == |items|
      ensures output == old(ring) && kept == old(kept) + Count(|items| - |output|, |items|)
    {
      hide Ones, Tail, EndsWith, Selection, AllBelow, Count, GateSettings.Memory;
      ghost var n := |items|;
      ToEnd(verdicts, cleared);
      KeepRing(kept, n - 1, n - 1 - was, |ring|);
      kept := kept + Count(n - |ring|, n);
      speaking, output, ring, openedAt := true, ring, [], n;
    }
  }

  // ---- What is kept

  /** Indices in feeding order, no duplicates. */
  ghost predicate Selection(kept: seq<nat>, fed: nat) {
    (forall i :: 0 <= i < |kept| ==> kept[i] < fed) && forall i, j :: 0 <= i < j < |kept| ==> kept[i] < kept[j]
  }

  ghost predicate AllBelow(kept: seq<nat>, start: nat) { forall i :: 0 <= i < |kept| ==> kept[i] < start }

  /** While it is open every packet is kept. */
  lemma KeepOne(kept: seq<nat>, from: nat, n: nat)
    requires Selection(kept, n) && from <= n && EndsWith(kept, Count(from, n))
    ensures var more := kept + Count(n, n + 1);
            Selection(more, n + 1) && AllBelow(more, n + 1) && EndsWith(more, Count(from, n + 1))
  {
    hide Selection, EndsWith, Count, AllBelow;
    EndsWithMore(kept, Count(from, n), Count(n, n + 1));
    SelectionBelow(kept, n);
    SelectionMore(kept, n, n, n + 1);
    CountJoin(from, n, n + 1);
  }

  /** When it opens the ring is kept, which nothing kept so far reaches into. */
  lemma KeepRing(kept: seq<nat>, n: nat, below: nat, m: nat)
    requires Selection(kept, n) && AllBelow(kept, below) && below <= n + 1 - m && m <= n + 1
    ensures var more := kept + Count(n + 1 - m, n + 1);
            Selection(more, n + 1) && EndsWith(more, Count(n + 1, n + 1))
  {
    hide Selection, AllBelow, EndsWith;
    SelectionLater(kept, n, below, n + 1);
    SelectionMore(kept, n, n + 1 - m, n + 1);
    assert Count(n + 1, n + 1) == [];
    EndsWithNothing(kept + Count(n + 1 - m, n + 1));
  }

  lemma KeepNone(kept: seq<nat>, n: nat, below: nat, m: nat)
    requires Selection(kept, n) && AllBelow(kept, below) && below <= n + 1 - m && m <= n + 1
    ensures Selection(kept, n + 1) && AllBelow(kept, n + 1 - m) && kept + Count(n + 1, n + 1) == kept
  {
    hide Selection, AllBelow;
    SelectionLater(kept, n, below, n + 1);
    assert Count(n + 1, n + 1) == [];
  }

  lemma CountJoin(a: nat, b: nat, c: nat)
    requires a <= b <= c
    ensures Count(a, c) == Count(a, b) + Count(b, c)
  {}

  lemma SliceOfSlice<T>(s: seq<T>, a: nat, b: nat)
    requires a <= b <= |s|
    ensures s[a..][..b - a] == s[a..b]
  {}

  lemma ToEnd<T>(s: seq<T>, a: nat)
    requires a <= |s|
    ensures s[a..|s|] == s[a..]
  {}

  lemma SelectionBelow(kept: seq<nat>, fed: nat)
    requires Selection(kept, fed)
    ensures AllBelow(kept, fed)
  {}

  lemma SelectionMore(kept: seq<nat>, fed: nat, a: nat, b: nat)
    requires Selection(kept, fed) && AllBelow(kept, a) && a <= b
    ensures Selection(kept + Count(a, b), b) && AllBelow(kept + Count(a, b), b)
  {}

  lemma SelectionLater(kept: seq<nat>, fed: nat, start: nat, more: nat)
    requires Selection(kept, fed) && fed <= more && AllBelow(kept, start)
    ensures Selection(kept, more) && forall a: nat :: a >= start ==> AllBelow(kept, a)
  {}

  function Count(a: nat, b: nat): (r: seq<nat>)
    requires a <= b
    ensures |r| == b - a && forall i :: 0 <= i < |r| ==> r[i] == a + i
  {
    seq(b - a, i => a + i)
  }

  ghost predicate EndsWith<T>(s: seq<T>, run: seq<T>) { |run| <= |s| && s[|s| - |run|..] == run }

  lemma EndsWithMore<T>(s: seq<T>, run: seq<T>, more: seq<T>)
    requires EndsWith(s, run)
    ensures EndsWith(s + more, run + more)
  {
    assert s == s[..|s| - |run|] + run;
    assert (s + more)[|s| - |run|..] == run + more;
  }

  lemma EndsWithNothing<T>(s: seq<T>)
    ensures EndsWith(s, [])
  {}

  /** The ring is the newest packets since the last close or reset, at most preroll of them. */
  lemma WaitingPush<T>(ring: seq<T>, items: seq<T>, cleared: nat, preroll: nat)
    requires cleared < |items| && preroll > 0 && ring == Tail(items[cleared..|items| - 1], preroll)
    ensures var next := Tail(ring + [items[|items| - 1]], preroll);
            && next == Tail(items[cleared..], preroll) && |ring| < |items| && 1 <= |next| <= |ring| + 1 && |next| <= |items|
            && next == items[|items| - |next|..]
  {
    var before := items[cleared..|items| - 1];
    TailPush(before, items[|items| - 1], preroll);
    assert before + [items[|items| - 1]] == items[cleared..];
  }

  lemma TailOfEmpty<T>(n: nat)
    ensures forall s: seq<T> :: |s| == 0 ==> Tail(s, n) == []
  {}

  /** Hear, branch by branch. */
  lemma HearIs(g: GateSettings, s: Gate, isSpeech: bool)
    ensures var recent := Tail(s.recent + [isSpeech], g.Memory());
            Hear(g, s, isSpeech) == if s.speaking && Ones(Tail(recent, g.hangover)) <= g.stopMax then SHUT
                                    else Gate(recent, s.speaking || Ones(Tail(recent, g.startWindow)) >= g.startNeeded)
  {}

  lemma SliceKept<T>(s: seq<T>, x: T, a: nat, b: nat)
    requires a <= |s|
    ensures (s + [x])[a..] == s[a..] + [x] && (a <= b <= |s| ==> (s + [x])[a..b] == s[a..b])
  {}

  lemma TailPush<T>(s: seq<T>, x: T, n: nat)
    requires n > 0
    ensures Tail(Tail(s, n) + [x], n) == Tail(s + [x], n)
  {}

  lemma TailOfTail<T>(s: seq<T>, m: nat, n: nat)
    requires m <= n
    ensures Tail(Tail(s, n), m) == Tail(s, m)
  {}

  // ---- Which packets a run keeps

  /** What the gate remembers are the last verdicts since the last close or reset. */
  lemma {:induction false} RecentSince(g: GateSettings, verdicts: seq<bool>, resets: set<nat>)
    requires g.Valid()
    ensures After(g, verdicts, resets).recent == Tail(verdicts[Cleared(g, verdicts, resets)..], g.Memory())
    decreases |verdicts|
  {
    hide Hear, Tail;
    TailOfEmpty<bool>(g.Memory());
    if verdicts != [] && |verdicts| !in resets {
      var front, v := verdicts[..|verdicts| - 1], verdicts[|verdicts| - 1];
      RecentSince(g, front, resets);
      HearTail(g, After(g, front, resets), front[Cleared(g, front, resets)..], v);
      assert verdicts == front + [v];
      SliceKept(front, v, Cleared(g, front, resets), |front|);
    }
  }

  /** It opens on enough speech, and closes on little, in its two windows of the verdicts since the last close or reset. */
  lemma WindowsDecide(g: GateSettings, verdicts: seq<bool>, resets: set<nat>, j: nat)
    requires g.Valid() && j < |verdicts| && j + 1 !in resets
    ensures var heard := verdicts[Cleared(g, verdicts[..j], resets)..j + 1];
            After(g, verdicts[..j + 1], resets).speaking <==>
              if After(g, verdicts[..j], resets).speaking then Ones(Tail(heard, g.hangover)) > g.stopMax
              else Ones(Tail(heard, g.startWindow)) >= g.startNeeded
  {
    hide Tail, Ones;
    var front, v := verdicts[..j], verdicts[j];
    RecentSince(g, front, resets);
    HearTail(g, After(g, front, resets), front[Cleared(g, front, resets)..], v);
    assert verdicts[..j + 1] == front + [v] && verdicts[..j + 1][..j] == front;
    SliceKept(front, v, Cleared(g, front, resets), j);
    hide Hear, Cleared;
    assert verdicts[Cleared(g, front, resets)..j + 1] == (front + [v])[Cleared(g, front, resets)..];
  }

  /** The gate opens on verdict j. */
  predicate OpensAt(g: GateSettings, verdicts: seq<bool>, resets: set<nat>, j: nat)
    requires j < |verdicts|
  {
    !After(g, verdicts[..j], resets).speaking && Hear(g, After(g, verdicts[..j], resets), verdicts[j]).speaking
  }

  /** From packet i to packet j the gate stays shut and is not reset. */
  ghost predicate Undisturbed(g: GateSettings, verdicts: seq<bool>, resets: set<nat>, i: nat, j: nat)
    requires j <= |verdicts|
  {
    forall k :: i < k <= j ==> !After(g, verdicts[..k], resets).speaking && k !in resets
  }

  /**
   The gate was open when packet i came, or it opened on one of the preroll packets that start with i, with no close or
   reset in between.
   */
  ghost predicate Wanted(g: GateSettings, verdicts: seq<bool>, resets: set<nat>, i: nat)
    requires i < |verdicts|
  {
    || After(g, verdicts[..i], resets).speaking
    || exists j :: i <= j < |verdicts| && j - i < g.preroll && OpensAt(g, verdicts, resets, j)
                   && Undisturbed(g, verdicts, resets, i, j)
  }

  lemma {:induction false} ClearedIff(g: GateSettings, verdicts: seq<bool>, resets: set<nat>, i: nat, n: nat)
    requires i <= n <= |verdicts|
    requires !After(g, verdicts[..n], resets).speaking && !After(g, verdicts[..i], resets).speaking
    ensures Cleared(g, verdicts[..n], resets) <= i <==> Undisturbed(g, verdicts, resets, i, n)
    decreases n
  {
    hide Hear;
    if i < n {
      assert verdicts[..n][..n - 1] == verdicts[..n - 1];
      if n !in resets && !After(g, verdicts[..n - 1], resets).speaking {
        hide After;
        ClearedIff(g, verdicts, resets, i, n - 1);
      } else {
        assert n in resets || (After(g, verdicts[..n - 1], resets).speaking && (i < n - 1 || n in resets));
      }
    }
  }

  lemma KeptStep(g: GateSettings, verdicts: seq<bool>, resets: set<nat>, n: nat)
    requires n < |verdicts|
    ensures var open := After(g, verdicts[..n], resets).speaking;
            var m := Returned(g, verdicts[..n + 1], resets);
            && Kept(g, verdicts[..n + 1], resets) == Kept(g, verdicts[..n], resets) + Count(n + 1 - m, n + 1)
            && if open then m == 1
               else if OpensAt(g, verdicts, resets, n)
               then m == if n + 1 - Cleared(g, verdicts[..n], resets) < g.preroll then n + 1 - Cleared(g, verdicts[..n], resets)
                         else g.preroll
               else m == 0
  {
    hide Hear, After, Cleared;
    assert verdicts[..n + 1][..n] == verdicts[..n];
  }

  /** What packet n of a run adds to the packets kept. */
  lemma AddsIff(g: GateSettings, verdicts: seq<bool>, resets: set<nat>, n: nat, i: nat)
    requires i <= n < |verdicts| && !After(g, verdicts[..i], resets).speaking
    ensures i in Count(n + 1 - Returned(g, verdicts[..n + 1], resets), n + 1) <==>
            i > n - g.preroll && OpensAt(g, verdicts, resets, n) && Undisturbed(g, verdicts, resets, i, n)
  {
    hide Hear, After, Cleared, Kept, Undisturbed, Returned, OpensAt, Count;
    KeptStep(g, verdicts, resets, n);
    var m := Returned(g, verdicts[..n + 1], resets);
    CountHas(n + 1 - m, n + 1, i);
    if After(g, verdicts[..n], resets).speaking {
      NotOpening(g, verdicts, resets, n);
    } else {
      ClearedIff(g, verdicts, resets, i, n);
    }
  }

  lemma NotOpening(g: GateSettings, verdicts: seq<bool>, resets: set<nat>, n: nat)
    requires n < |verdicts| && After(g, verdicts[..n], resets).speaking
    ensures !OpensAt(g, verdicts, resets, n)
  {}

  lemma CountHas(a: nat, b: nat, i: nat)
    requires a <= b
    ensures i in Count(a, b) <==> a <= i < b
  {
    if a <= i < b { assert Count(a, b)[i - a] == i; }
  }

  lemma {:induction false} KeptUpTo(g: GateSettings, verdicts: seq<bool>, resets: set<nat>, i: nat, n: nat)
    requires i < |verdicts| && n <= |verdicts|
    ensures i in Kept(g, verdicts[..n], resets) <==>
            i < n && (|| After(g, verdicts[..i], resets).speaking
                      || exists j :: i <= j < n && j - i < g.preroll && OpensAt(g, verdicts, resets, j)
                                     && Undisturbed(g, verdicts, resets, i, j))
    decreases n
  {
    hide After, Undisturbed, OpensAt, Returned, Count;
    if n > 0 {
      var k := n - 1;
      KeptUpTo(g, verdicts, resets, i, k);
      KeptStep(g, verdicts, resets, k);
      hide Kept;
      CountHas(n - Returned(g, verdicts[..n], resets), n, i);
      if i <= k && !After(g, verdicts[..i], resets).speaking { AddsIff(g, verdicts, resets, k, i); }
    }
  }

  /** A packet is kept if and only if it is wanted. */
  lemma KeptIff(g: GateSettings, verdicts: seq<bool>, resets: set<nat>, i: nat)
    requires i < |verdicts|
    ensures i in Kept(g, verdicts, resets) <==> Wanted(g, verdicts, resets, i)
  {
    hide After, Undisturbed, OpensAt, Kept;
    KeptUpTo(g, verdicts, resets, i, |verdicts|);
    assert verdicts[..|verdicts|] == verdicts;
  }

  // ---- How long the gate stays open

  lemma {:induction false} OnesAppend(a: seq<bool>, b: seq<bool>)
    ensures Ones(a + b) == Ones(a) + Ones(b) && Ones(a) <= |a|
  {
    if a == [] {
      assert a + b == b;
    } else {
      OnesAppend(a[1..], b);
      assert (a + b)[1..] == a[1..] + b;
    }
  }

  lemma OnesOfTails(s: seq<bool>, m: nat, n: nat)
    requires m <= n
    ensures Ones(Tail(s, m)) <= Ones(Tail(s, n)) <= Ones(Tail(s, m)) + (n - m)
  {
    var short, long := Tail(s, m), Tail(s, n);
    var before := long[..|long| - |short|];
    assert long == before + short;
    OnesAppend(before, short);
  }

  /**
   The speech that opened the gate stays in sight of the hangover: it closes no sooner than this many packets
   after it opened (9 with the defaults).
   */
  lemma OpenLongEnough(g: GateSettings, heard: seq<bool>, opening: nat)
    requires opening <= |heard| && g.startNeeded > g.stopMax
    requires Ones(Tail(heard[..opening], g.startWindow)) >= g.startNeeded
    requires Ones(Tail(heard, g.hangover)) <= g.stopMax
    ensures |heard| - opening >= g.hangover - g.startWindow + g.startNeeded - g.stopMax
  {
    hide Ones;
    var before, since := heard[..opening], heard[opening..];
    var k := |since|;
    OnesAppend(Tail(before, g.startWindow), []);
    assert heard == before + since;
    if k < g.hangover {
      var m := g.hangover - k;
      TailOverJoin(before, since, g.hangover);
      OnesAppend(Tail(before, m), since);
      hide Tail;
      if m >= g.startWindow {
        OnesOfTails(before, g.startWindow, m);
      } else {
        OnesOfTails(before, m, g.startWindow);
      }
    }
  }

  lemma TailOverJoin<T>(a: seq<T>, b: seq<T>, n: nat)
    requires |b| <= n
    ensures Tail(a + b, n) == Tail(a, n - |b|) + b
  {}

  // ---- Exactly when the bound holds

  /** The gate opens on verdict i and closes on verdict j. */
  ghost predicate OpensAndCloses(g: GateSettings, verdicts: seq<bool>, i: nat, j: nat) {
    && i < j < |verdicts| && !HearAll(g, verdicts[..i]).speaking && !HearAll(g, verdicts[..j + 1]).speaking
    && forall k :: i < k <= j ==> HearAll(g, verdicts[..k]).speaking
  }

  function Margin(g: GateSettings): int { g.hangover - g.startWindow + g.startNeeded - g.stopMax }

  lemma HearPush(g: GateSettings, verdicts: seq<bool>, k: nat)
    requires k < |verdicts|
    ensures HearAll(g, verdicts[..k + 1]) == Hear(g, HearAll(g, verdicts[..k]), verdicts[k])
  {
    hide Hear;
    assert verdicts[..k + 1][..k] == verdicts[..k];
  }

  /** The two counts, over all verdicts x since the gate last closed. */
  lemma HearTail(g: GateSettings, s: Gate, x: seq<bool>, v: bool)
    requires g.Valid() && s.recent == Tail(x, g.Memory())
    ensures Hear(g, s, v) ==
            if s.speaking && Ones(Tail(x + [v], g.hangover)) <= g.stopMax then SHUT
            else Gate(Tail(x + [v], g.Memory()), s.speaking || Ones(Tail(x + [v], g.startWindow)) >= g.startNeeded)
  {
    hide Ones, Tail;
    TailPush(x, v, g.Memory());
    TailOfTail(x + [v], g.hangover, g.Memory());
    TailOfTail(x + [v], g.startWindow, g.Memory());
  }

  /** A run up to k, when it remembers what was heard since a point. */
  lemma HearSince(g: GateSettings, verdicts: seq<bool>, since: nat, k: nat)
    requires g.Valid() && since <= k < |verdicts| && HearAll(g, verdicts[..k]).recent == Tail(verdicts[since..k], g.Memory())
    ensures HearAll(g, verdicts[..k + 1]) ==
            if HearAll(g, verdicts[..k]).speaking && Ones(Tail(verdicts[since..k + 1], g.hangover)) <= g.stopMax then SHUT
            else Gate(Tail(verdicts[since..k + 1], g.Memory()),
                      HearAll(g, verdicts[..k]).speaking || Ones(Tail(verdicts[since..k + 1], g.startWindow)) >= g.startNeeded)
  {
    hide Ones, Tail, Hear, HearAll;
    HearPush(g, verdicts, k);
    HearTail(g, HearAll(g, verdicts[..k]), verdicts[since..k], verdicts[k]);
    assert verdicts[since..k + 1] == verdicts[since..k] + [verdicts[k]];
  }

  lemma TailOfNothing(n: nat)
    ensures Tail<bool>([], n) == []
  {}

  /** What the gate remembers are the last verdicts since it last closed. */
  lemma {:induction false} RemembersSince(g: GateSettings, verdicts: seq<bool>, k: nat) returns (since: nat)
    requires g.Valid() && k <= |verdicts|
    ensures since <= k && HearAll(g, verdicts[..k]).recent == Tail(verdicts[since..k], g.Memory())
  {
    hide Ones, Hear, Tail;
    TailOfNothing(g.Memory());
    if k == 0 {
      since := 0;
      assert verdicts[..0] == [] == verdicts[0..0];
    } else {
      since := RemembersSince(g, verdicts, k - 1);
      HearSince(g, verdicts, since, k - 1);
      hide HearAll;
      if HearAll(g, verdicts[..k]) == SHUT {
        since := k;
        assert verdicts[k..k] == [];
      }
    }
  }

  /** While it is open it forgets nothing it will look at. */
  lemma {:induction false} OpenRemembers(g: GateSettings, verdicts: seq<bool>, since: nat, i: nat, k: nat)
    requires g.Valid() && since <= i < k <= |verdicts|
    requires HearAll(g, verdicts[..i]).recent == Tail(verdicts[since..i], g.Memory())
    requires !HearAll(g, verdicts[..i]).speaking && forall m :: i < m <= k ==> HearAll(g, verdicts[..m]).speaking
    ensures HearAll(g, verdicts[..k]).recent == Tail(verdicts[since..k], g.Memory())
    decreases k
  {
    hide Ones, Hear, HearAll, Tail;
    if k > i + 1 { OpenRemembers(g, verdicts, since, i, k - 1); }
    HearSince(g, verdicts, since, k - 1);
    assert HearAll(g, verdicts[..k]).speaking;
  }

  lemma MarginHolds(g: GateSettings, verdicts: seq<bool>, i: nat, j: nat)
    requires g.Valid() && g.startNeeded > g.stopMax && OpensAndCloses(g, verdicts, i, j)
    ensures j - i >= Margin(g)
  {
    hide Ones, Hear, HearAll, Tail;
    var since := RemembersSince(g, verdicts, i);
    OpenRemembers(g, verdicts, since, i, j);
    HearSince(g, verdicts, since, i);
    HearSince(g, verdicts, since, j);
    var heard, opening := verdicts[since..j + 1], i + 1 - since;
    assert heard[..opening] == verdicts[since..i + 1];
    assert HearAll(g, verdicts[..i + 1]).speaking && HearAll(g, verdicts[..j]).speaking;
    OpenLongEnough(g, heard, opening);
  }

  function Speech(n: nat): (r: seq<bool>)
    ensures |r| == n
  {
    seq(n, _ => true)
  }

  lemma {:induction false} OnesSpeech(n: nat)
    ensures Ones(Speech(n)) == n
  {
    if n > 0 {
      OnesSpeech(n - 1);
      assert Speech(n)[1..] == Speech(n - 1);
    }
  }

  lemma {:induction false} OnesOfSpeech(n: nat, m: nat)
    ensures Ones(Tail(Speech(n), m)) <= n
  {
    OnesSpeech(n);
    OnesOfTails(Speech(n), if m <= n then m else n, n);
  }

  /** Fewer packets of speech than it needs leave the gate shut. */
  lemma {:induction false} ShutWhile(g: GateSettings, n: nat)
    requires g.Valid() && (n > 0 ==> n < g.startNeeded)
    ensures HearAll(g, Speech(n)) == Gate(Tail(Speech(n), g.Memory()), false)
  {
    hide Ones, Hear;
    if n > 0 {
      ShutWhile(g, n - 1);
      assert Speech(n)[..n - 1] == Speech(n - 1) && Speech(n) == Speech(n - 1) + [true];
      HearTail(g, HearAll(g, Speech(n - 1)), Speech(n - 1), true);
      OnesOfSpeech(n, g.startWindow);
      hide Tail;
    }
  }

  /** Where the counts overlap, speech that just opens the gate is followed by one silent packet that closes it. */
  lemma ClosesAtOnce(g: GateSettings) returns (verdicts: seq<bool>, i: nat)
    requires g.Valid() && g.startNeeded <= g.startWindow && g.startNeeded <= g.stopMax
    ensures OpensAndCloses(g, verdicts, i, i + 1)
  {
    hide Ones, Hear, HearAll, Tail;
    var n := if g.startNeeded == 0 then 1 else g.startNeeded;
    i := n - 1;
    var opening := Speech(n - 1) + [g.startNeeded > 0];
    verdicts := opening + [false];
    assert verdicts[..i] == verdicts[0..i] == Speech(n - 1) && verdicts[..n] == verdicts[0..n] == opening;
    assert verdicts[0..n + 1] == verdicts;
    ShutWhile(g, n - 1);
    OnesOpening(g, opening, n);
    HearSince(g, verdicts, 0, n - 1);
    HearSince(g, verdicts, 0, n);
  }

  lemma OnesOpening(g: GateSettings, opening: seq<bool>, n: nat)
    requires g.Valid() && n == (if g.startNeeded == 0 then 1 else g.startNeeded) && opening == Speech(n - 1) + [g.startNeeded > 0]
    requires g.startNeeded <= g.startWindow
    ensures Ones(Tail(opening, g.startWindow)) == g.startNeeded && Ones(Tail(opening + [false], g.hangover)) <= g.startNeeded
  {
    hide Ones;
    OnesSpeech(n - 1);
    OnesOne(g.startNeeded > 0);
    OnesOne(false);
    OnesAppend(Speech(n - 1), [g.startNeeded > 0]);
    OnesAppend(opening, [false]);
    var all := opening + [false];
    OnesOfTails(all, if g.hangover <= |all| then g.hangover else |all|, |all|);
  }

  lemma OnesOne(v: bool)
    ensures Ones([v]) == if v then 1 else 0
  {
    var one := [v];
    assert one[1..] == [];
  }

  /**
   In every run, whatever is heard, an opening lasts that margin, if and only if closing needs fewer voiced packets
   than opening (or the margin is nothing, or the gate can never open).
   */
  lemma MarginIff(g: GateSettings)
    requires g.Valid()
    ensures (forall verdicts, i: nat, j: nat :: OpensAndCloses(g, verdicts, i, j) ==> j - i >= Margin(g))
       <==> g.startNeeded > g.stopMax || Margin(g) <= 1 || g.startNeeded > g.startWindow
  {
    hide OpensAndCloses;
    if g.startNeeded > g.startWindow {
      forall verdicts, i: nat, j: nat ensures !OpensAndCloses(g, verdicts, i, j) { NeverOpens(g, verdicts, i, j); }
    } else if g.startNeeded > g.stopMax {
      forall verdicts, i: nat, j: nat | OpensAndCloses(g, verdicts, i, j) ensures j - i >= Margin(g) { MarginHolds(g, verdicts, i, j); }
    } else {
      var verdicts, i := ClosesAtOnce(g);
      forall verdicts, i: nat, j: nat | OpensAndCloses(g, verdicts, i, j) ensures j - i >= 1 { LastsOne(g, verdicts, i, j); }
    }
  }

  lemma LastsOne(g: GateSettings, verdicts: seq<bool>, i: nat, j: nat)
    requires OpensAndCloses(g, verdicts, i, j)
    ensures j - i >= 1
  {}

  lemma NeverOpens(g: GateSettings, verdicts: seq<bool>, i: nat, j: nat)
    requires g.Valid() && g.startNeeded > g.startWindow
    ensures !OpensAndCloses(g, verdicts, i, j)
  {
    if OpensAndCloses(g, verdicts, i, j) {
      HearPush(g, verdicts, i);
      OnesAppend(Tail(HearAll(g, verdicts[..i + 1]).recent, g.startWindow), []);
    }
  }

  /** With the default counts an opening lasts at least nine packets. */
  lemma DefaultMargin(verdicts: seq<bool>, i: nat, j: nat)
    requires OpensAndCloses(GateSettings(10, 10, 6, 15, 2), verdicts, i, j)
    ensures j - i >= 9
  {
    MarginHolds(GateSettings(10, 10, 6, 15, 2), verdicts, i, j);
  }
}
