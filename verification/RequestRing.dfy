/** The gateway's request counters and the sixty slots that remember the last minute. */
module RequestRing {
  import opened Text
  import opened Sums

  const SLOTS := 60

  datatype Slot = Slot(second: int, count: nat)

  datatype Metrics = Metrics(
    total: nat, statusCode: map<int, nat>,
    rateLimitRejected: nat, authRejected: nat, validationRejected: nat, perSecond: seq<Slot>)

  function Initial(): Metrics {
    Metrics(0, map[], 0, 0, 0, seq(SLOTS, _ => Slot(0, 0)))
  }

  datatype Entry = Entry(status: int, outcome: string, second: int)

  function StatusOf(e: Entry): int {
    if e.status == 0 then 200 else e.status
  }

  /** Go's remainder, which has the sign of the dividend. */
  function SlotIndex(second: int): int {
    if second >= 0 then second % SLOTS else -((-second) % SLOTS)
  }

  /** A second before 1970 that is no whole minute indexes the array below zero, which panics. */
  predicate Panics(second: int) {
    SlotIndex(second) < 0
  }

  lemma SlotIndexExact(second: int)
    ensures Panics(second) <==> second < 0 && second % SLOTS != 0
    ensures !Panics(second) ==> SlotIndex(second) == second % SLOTS
  {}

  function Hit(slot: Slot, second: int): Slot {
    if slot.second != second then Slot(second, 1) else slot.(count := slot.count + 1)
  }

  /** The counters count every call, also one that then panics over its slot. */
  function Recorded(m: Metrics, e: Entry): Metrics
    requires |m.perSecond| == SLOTS
  {
    var code := StatusOf(e);
    var idx := SlotIndex(e.second);
    Metrics(
      m.total + 1,
      m.statusCode[code := (if code in m.statusCode then m.statusCode[code] else 0) + 1],
      m.rateLimitRejected + if e.outcome == "rejected_rate_limit" then 1 else 0,
      m.authRejected + if e.outcome == "rejected_auth" then 1 else 0,
      m.validationRejected + if e.outcome == "rejected_validation" then 1 else 0,
      if idx < 0 then m.perSecond else m.perSecond[idx := Hit(m.perSecond[idx], e.second)])
  }

  function RecordedAll(history: seq<Entry>): (m: Metrics)
    ensures |m.perSecond| == SLOTS
  {
    if history == [] then Initial()
    else Recorded(RecordedAll(history[..|history| - 1]), history[|history| - 1])
  }

  function SlotRecent(slot: Slot, now: int): nat {
    if slot.second == 0 then 0 else if now - slot.second < 60 then slot.count else 0
  }

  /** What the first `k` slots add to the last minute. */
  function RecentIn(ring: seq<Slot>, now: int, k: nat): nat
    requires k <= |ring|
  {
    if k == 0 then 0 else RecentIn(ring, now, k - 1) + SlotRecent(ring[k - 1], now)
  }

  // ---- counting over the history --------------------------------------------------------

  function CountIf(history: seq<Entry>, p: Entry -> bool): nat {
    if history == [] then 0
    else CountIf(history[..|history| - 1], p) + if p(history[|history| - 1]) then 1 else 0
  }

  lemma {:induction false} CountSame(history: seq<Entry>, p: Entry -> bool, q: Entry -> bool)
    requires forall e :: e in history ==> p(e) == q(e)
    ensures CountIf(history, p) == CountIf(history, q)
  {
    if history != [] {
      assert history[|history| - 1] in history;
      CountSame(history[..|history| - 1], p, q);
    }
  }

  lemma {:induction false} CountSplit(history: seq<Entry>, p: Entry -> bool, q: Entry -> bool, both: Entry -> bool)
    requires forall e :: e in history ==> both(e) == (p(e) || q(e)) && !(p(e) && q(e))
    ensures CountIf(history, both) == CountIf(history, p) + CountIf(history, q)
  {
    if history != [] {
      assert history[|history| - 1] in history;
      CountSplit(history[..|history| - 1], p, q, both);
    }
  }

  lemma {:induction false} CountNone(history: seq<Entry>, p: Entry -> bool)
    requires forall e :: e in history ==> !p(e)
    ensures CountIf(history, p) == 0
  {
    if history != [] {
      assert history[|history| - 1] in history;
      CountNone(history[..|history| - 1], p);
    }
  }

  function AtSecond(second: int): Entry -> bool {
    (e: Entry) => e.second == second
  }

  function InLastMinute(now: int): Entry -> bool {
    (e: Entry) => now - e.second < 60
  }

  function InSlots(now: int, k: nat): Entry -> bool {
    (e: Entry) => e.second % SLOTS < k && now - e.second < 60
  }

  function InSlot(now: int, i: nat): Entry -> bool {
    (e: Entry) => e.second % SLOTS == i && now - e.second < 60
  }

  lemma {:induction false} CountAtMost(history: seq<Entry>, p: Entry -> bool, q: Entry -> bool)
    requires forall e :: e in history && p(e) ==> q(e)
    ensures CountIf(history, p) <= CountIf(history, q)
  {
    if history != [] {
      assert history[|history| - 1] in history;
      CountAtMost(history[..|history| - 1], p, q);
    }
  }

  lemma CountLast(before: seq<Entry>, e: Entry, p: Entry -> bool)
    ensures CountIf(before + [e], p) == CountIf(before, p) + if p(e) then 1 else 0
  {
    assert (before + [e])[..|before|] == before;
  }

  lemma CountSome(history: seq<Entry>, p: Entry -> bool, x: Entry)
    requires x in history && p(x)
    ensures CountIf(history, p) >= 1
  {
    if CountIf(history, p) == 0 { NoneCounted(history, p, x); }
  }

  lemma {:induction false} NoneCounted(history: seq<Entry>, p: Entry -> bool, x: Entry)
    requires x in history && CountIf(history, p) == 0
    ensures !p(x)
  {
    var n := |history| - 1;
    if x != history[n] {
      assert history == history[..n] + [history[n]];
      NoneCounted(history[..n], p, x);
    }
  }

  // ---- when the ring agrees with the history ----------------------------------------------------

  /** No record of the history is a minute or more after `second`. */
  ghost predicate Live(history: seq<Entry>, second: int) {
    forall e :: e in history ==> e.second < second + 60
  }

  ghost predicate Until(history: seq<Entry>, now: int) {
    forall e :: e in history ==> e.second <= now
  }

  /**
   * A record does no harm when it is itself counted or too old to matter, and when every later second it takes the
   * slot from is already a minute or more behind the largest so far.
   */
  ghost predicate Harmless(before: seq<Entry>, e: Entry) {
    && (Live(before + [e], e.second) ==> e.second != 0 && !Panics(e.second))
    && (!Panics(e.second) ==>
          forall x :: x in before && x.second % SLOTS == e.second % SLOTS && x.second > e.second ==> !Live(before + [e], x.second))
  }

  ghost predicate AllHarmless(history: seq<Entry>) {
    forall n :: 0 <= n < |history| ==> Harmless(history[..n], history[n])
  }

  predicate WindowExact(history: seq<Entry>, now: int) {
    RecentIn(RecordedAll(history).perSecond, now, SLOTS) == CountIf(history, InLastMinute(now))
  }

  /** After every record, and at every instant not before the records, the slots count the last minute. */
  ghost predicate AlwaysExact(history: seq<Entry>) {
    forall n, now :: 0 <= n <= |history| && Until(history[..n], now) ==> WindowExact(history[..n], now)
  }

  /** Slot `i` holds the one second of its residue that may still count, with its exact count. */
  ghost predicate SlotExact(slot: Slot, history: seq<Entry>, i: nat) {
    && (slot.second != 0 ==> slot.second % SLOTS == i && !Panics(slot.second))
    && (slot.second != 0 && Live(history, slot.second) ==> slot.count == CountIf(history, AtSecond(slot.second)))
    && (forall e :: e in history && e.second % SLOTS == i && Live(history, e.second) ==> slot.second == e.second != 0)
  }

  lemma LiveBefore(before: seq<Entry>, e: Entry, second: int)
    requires Live(before + [e], second)
    ensures Live(before, second) && e.second < second + 60
  {
    assert forall x :: x in before ==> x in before + [e];
    assert e in before + [e];
  }

  lemma Congruent(a: int, b: int)
    requires a % SLOTS == b % SLOTS && a < b
    ensures a + 60 <= b
  {}

  /** In the slot a record takes, no other second of the residue may still count. */
  lemma TakenSlot(slot: Slot, before: seq<Entry>, e: Entry, i: nat, x: Entry)
    requires i < SLOTS && SlotExact(slot, before, i) && Harmless(before, e) && !Panics(e.second) && e.second % SLOTS == i
    requires x in before && x.second % SLOTS == i && Live(before + [e], x.second)
    ensures x.second == e.second == slot.second != 0
  {
    LiveBefore(before, e, x.second);
    assert !(x.second > e.second);
    if x.second < e.second { Congruent(x.second, e.second); }
    hide Live, Harmless, CountIf;
  }

  lemma HitStep(slot: Slot, before: seq<Entry>, e: Entry, i: nat)
    requires i < SLOTS && SlotExact(slot, before, i) && Harmless(before, e) && !Panics(e.second) && e.second % SLOTS == i
    ensures SlotExact(Hit(slot, e.second), before + [e], i)
  {
    var slot' := Hit(slot, e.second);
    forall x | x in before + [e] && x.second % SLOTS == i && Live(before + [e], x.second)
      ensures slot'.second == x.second != 0
    {
      if x in before { TakenSlot(slot, before, e, i, x); }
    }
    if e.second != 0 && Live(before + [e], e.second) {
      HitCount(slot, before, e, i);
    }
    hide Live, Harmless, CountIf, SlotIndex;
  }

  lemma HitCount(slot: Slot, before: seq<Entry>, e: Entry, i: nat)
    requires i < SLOTS && SlotExact(slot, before, i) && Harmless(before, e) && !Panics(e.second) && e.second % SLOTS == i
    requires e.second != 0 && Live(before + [e], e.second)
    ensures Hit(slot, e.second).count == CountIf(before + [e], AtSecond(e.second))
  {
    CountLast(before, e, AtSecond(e.second));
    LiveBefore(before, e, e.second);
    if slot.second != e.second {
      forall x | x in before ensures x.second != e.second {
        if x.second == e.second { TakenSlot(slot, before, e, i, x); }
      }
      CountNone(before, AtSecond(e.second));
    }
    hide Live, Harmless, CountIf;
  }

  /** A slot the record does not take: another residue, or a panic over a second too old to matter. */
  lemma OtherStep(slot: Slot, before: seq<Entry>, e: Entry, i: nat)
    requires i < SLOTS && SlotExact(slot, before, i) && Harmless(before, e) && (Panics(e.second) || e.second % SLOTS != i)
    ensures SlotExact(slot, before + [e], i)
  {
    CountLast(before, e, AtSecond(slot.second));
    if slot.second != 0 && Live(before + [e], slot.second) { LiveBefore(before, e, slot.second); }
    forall x | x in before + [e] && x.second % SLOTS == i && Live(before + [e], x.second)
      ensures slot.second == x.second != 0
    {
      LiveBefore(before, e, x.second);
    }
    hide Live, CountIf, SlotIndex;
  }

  lemma RecordedSlot(m: Metrics, e: Entry, i: nat)
    requires |m.perSecond| == SLOTS && i < SLOTS
    ensures Recorded(m, e).perSecond[i] ==
            if !Panics(e.second) && e.second % SLOTS == i then Hit(m.perSecond[i], e.second) else m.perSecond[i]
  {
    SlotIndexExact(e.second);
    hide Hit, StatusOf, SlotIndex;
  }

  lemma HarmlessPrefix(history: seq<Entry>, n: nat)
    requires AllHarmless(history) && n <= |history|
    ensures AllHarmless(history[..n])
  {
    hide Harmless;
    forall k | 0 <= k < n ensures Harmless(history[..n][..k], history[..n][k]) {
      assert history[..n][..k] == history[..k];
    }
  }

  lemma HarmlessAt(history: seq<Entry>, n: nat)
    requires AllHarmless(history) && n < |history|
    ensures Harmless(history[..n], history[n])
  {
    hide Harmless;
  }

  lemma {:induction false} RingExactFor(history: seq<Entry>, i: nat)
    requires AllHarmless(history) && i < SLOTS
    ensures SlotExact(RecordedAll(history).perSecond[i], history, i)
  {
    if history != [] {
      var before, e := history[..|history| - 1], history[|history| - 1];
      assert history == before + [e];
      assert RecordedAll(history) == Recorded(RecordedAll(before), e);
      hide SlotExact, AllHarmless, Harmless, RecordedAll, Recorded, Hit, Panics;
      HarmlessPrefix(history, |history| - 1);
      HarmlessAt(history, |history| - 1);
      RingExactFor(before, i);
      RecordedSlot(RecordedAll(before), e, i);
      if !Panics(e.second) && e.second % SLOTS == i {
        HitStep(RecordedAll(before).perSecond[i], before, e, i);
      } else {
        OtherStep(RecordedAll(before).perSecond[i], before, e, i);
      }
    }
  }

  /** An exact slot contributes exactly its residue's part of the last minute. */
  lemma SlotWindow(slot: Slot, history: seq<Entry>, i: nat, now: int)
    requires i < SLOTS && SlotExact(slot, history, i) && Until(history, now)
    ensures SlotRecent(slot, now) == CountIf(history, InSlot(now, i))
  {
    hide CountIf, SlotIndex;
    forall e | e in history && InSlot(now, i)(e) ensures slot.second == e.second != 0 {
      assert Live(history, e.second);
    }
    if slot.second == 0 || now - slot.second >= 60 {
      CountNone(history, InSlot(now, i));
    } else {
      assert Live(history, slot.second);
      CountSame(history, InSlot(now, i), AtSecond(slot.second));
    }
  }

  lemma {:induction false} RecentExact(ring: seq<Slot>, history: seq<Entry>, now: int, k: nat)
    requires |ring| == SLOTS && k <= SLOTS && forall i :: 0 <= i < SLOTS ==> SlotExact(ring[i], history, i)
    requires Until(history, now)
    ensures RecentIn(ring, now, k) == CountIf(history, InSlots(now, k))
  {
    hide SlotExact, Until;
    if k == 0 {
      CountNone(history, InSlots(now, k));
    } else {
      RecentExact(ring, history, now, k - 1);
      SlotWindow(ring[k - 1], history, k - 1, now);
      CountSplit(history, InSlots(now, k - 1), InSlot(now, k - 1), InSlots(now, k));
    }
  }

  lemma HarmlessExact(history: seq<Entry>, now: int)
    requires AllHarmless(history) && Until(history, now)
    ensures WindowExact(history, now)
  {
    hide SlotExact, AllHarmless, Until;
    forall i | 0 <= i < SLOTS ensures SlotExact(RecordedAll(history).perSecond[i], history, i) { RingExactFor(history, i); }
    RecentExact(RecordedAll(history).perSecond, history, now, SLOTS);
    CountSame(history, InSlots(now, SLOTS), InLastMinute(now));
  }

  // ---- a harmful record makes the count too small ------------------------------------------------

  /** Whatever was recorded, a slot holds a recorded second and never counts too much of it. */
  ghost predicate SlotAtMost(slot: Slot, history: seq<Entry>, i: nat) {
    slot.second != 0 ==>
      && slot.second % SLOTS == i && !Panics(slot.second)
      && Occurs(history, slot.second)
      && slot.count <= CountIf(history, AtSecond(slot.second))
  }

  lemma AtMostStep(slot: Slot, before: seq<Entry>, e: Entry, i: nat)
    requires i < SLOTS && SlotAtMost(slot, before, i)
    ensures SlotAtMost(slot, before + [e], i)
    ensures !Panics(e.second) && e.second % SLOTS == i ==> SlotAtMost(Hit(slot, e.second), before + [e], i)
  {
    hide CountIf, SlotIndex;
    CountLast(before, e, AtSecond(slot.second));
    CountLast(before, e, AtSecond(e.second));
    if slot.second != 0 { OccursMore(before, e, slot.second); }
    OccursMore(before, e, e.second);
    hide Occurs;
  }

  lemma {:induction false} RingAtMost(history: seq<Entry>, i: nat)
    requires i < SLOTS
    ensures SlotAtMost(RecordedAll(history).perSecond[i], history, i)
  {
    if history != [] {
      var before, e := history[..|history| - 1], history[|history| - 1];
      assert history == before + [e];
      RingAtMost(before, i);
      RecordedSlot(RecordedAll(before), e, i);
      assert RecordedAll(history) == Recorded(RecordedAll(before), e);
      hide SlotAtMost, RecordedAll, Recorded, Hit, Panics;
      AtMostStep(RecordedAll(before).perSecond[i], before, e, i);
    }
  }

  lemma SlotRecentAtMost(slot: Slot, history: seq<Entry>, i: nat, now: int)
    requires i < SLOTS && SlotAtMost(slot, history, i)
    ensures SlotRecent(slot, now) <= CountIf(history, InSlot(now, i))
  {
    hide CountIf, SlotIndex;
    if slot.second != 0 && now - slot.second < 60 { CountAtMost(history, AtSecond(slot.second), InSlot(now, i)); }
  }

  /** One slot that counts too little makes the sum too small. */
  lemma {:induction false} RecentLess(ring: seq<Slot>, history: seq<Entry>, now: int, k: nat, i: nat)
    requires |ring| == SLOTS && k <= SLOTS && i < SLOTS
    requires forall j :: 0 <= j < SLOTS ==> SlotAtMost(ring[j], history, j)
    requires SlotRecent(ring[i], now) < CountIf(history, InSlot(now, i))
    ensures RecentIn(ring, now, k) <= CountIf(history, InSlots(now, k))
    ensures i < k ==> RecentIn(ring, now, k) < CountIf(history, InSlots(now, k))
  {
    hide SlotAtMost, CountIf, SlotRecent;
    if k > 0 {
      RecentLess(ring, history, now, k - 1, i);
      SlotRecentAtMost(ring[k - 1], history, k - 1, now);
      CountSplit(history, InSlots(now, k - 1), InSlot(now, k - 1), InSlots(now, k));
    }
  }

  /** The latest second of a nonempty history. */
  function Latest(history: seq<Entry>): (now: int)
    requires history != []
  {
    var last := history[|history| - 1].second;
    if |history| == 1 then last
    else
      var before := Latest(history[..|history| - 1]);
      if before < last then last else before
  }

  ghost predicate Occurs(history: seq<Entry>, second: int) {
    exists e :: e in history && e.second == second
  }

  lemma OccursMore(before: seq<Entry>, e: Entry, second: int)
    requires Occurs(before, second) || e.second == second
    ensures Occurs(before + [e], second)
  {
    if e.second == second {
      assert e in before + [e];
    } else {
      var w :| w in before && w.second == second;
      assert w in before + [e];
    }
  }

  lemma UntilMore(before: seq<Entry>, e: Entry, now: int)
    requires Until(before, now) && e.second <= now
    ensures Until(before + [e], now)
  {}

  lemma UntilLater(history: seq<Entry>, now: int, later: int)
    requires Until(history, now) && now <= later
    ensures Until(history, later)
  {}

  lemma {:induction false} LatestIs(history: seq<Entry>)
    requires history != []
    ensures Until(history, Latest(history)) && Occurs(history, Latest(history))
  {
    hide Until, Occurs;
    var before, e := history[..|history| - 1], history[|history| - 1];
    assert history == before + [e];
    if before == [] {
      UntilEmpty(e.second);
    } else {
      LatestIs(before);
      UntilLater(before, Latest(before), Latest(history));
    }
    UntilMore(before, e, Latest(history));
    OccursMore(before, e, Latest(history));
  }

  lemma UntilEmpty(now: int)
    ensures Until([], now)
  {}

  /** After a harmful record its slot counts nothing of a second that is still within the minute. */
  lemma HarmfulSlot(before: seq<Entry>, e: Entry, now: int) returns (x: Entry)
    requires !Harmless(before, e) && Until(before + [e], now) && Occurs(before + [e], now)
    ensures x in before + [e] && InSlot(now, e.second % SLOTS)(x)
    ensures SlotRecent(RecordedAll(before + [e]).perSecond[e.second % SLOTS], now) == 0
  {
    var history, i := before + [e], e.second % SLOTS;
    var slot := RecordedAll(history).perSecond[i];
    assert history[..|before|] == before && history[|before|] == e;
    assert RecordedAll(history) == Recorded(RecordedAll(before), e);
    RecordedSlot(RecordedAll(before), e, i);
    RingAtMost(history, i);
    SlotIndexExact(0);
    hide RecordedAll, Recorded, CountIf, SlotIndex;
    assert !Panics(e.second) ==> slot.second == e.second;
    if Live(history, e.second) && (e.second == 0 || Panics(e.second)) {
      x := e;
      assert now < e.second + 60;
      if slot.second != 0 { OtherResidue(slot.second, e.second, now); }
    } else {
      x :| x in before && x.second % SLOTS == e.second % SLOTS && x.second > e.second && Live(history, x.second);
      Congruent(e.second, x.second);
      assert x in history && now < x.second + 60;
    }
  }

  /** Two different seconds of one residue are not both within the minute. */
  lemma OtherResidue(a: int, b: int, now: int)
    requires a % SLOTS == b % SLOTS && a != b && a <= now && b <= now < b + 60
    ensures now - a >= 60
  {
    if a < b { Congruent(a, b); } else { Congruent(b, a); }
  }

  lemma HarmfulLoses(before: seq<Entry>, e: Entry)
    requires !Harmless(before, e)
    ensures Until(before + [e], Latest(before + [e])) && !WindowExact(before + [e], Latest(before + [e]))
  {
    var history, i := before + [e], e.second % SLOTS;
    var now := Latest(history);
    LatestIs(history);
    var x := HarmfulSlot(before, e, now);
    CountSome(history, InSlot(now, i), x);
    hide Harmless, Until, SlotAtMost, RecordedAll, SlotRecent, CountIf;
    forall j | 0 <= j < SLOTS ensures SlotAtMost(RecordedAll(history).perSecond[j], history, j) { RingAtMost(history, j); }
    RecentLess(RecordedAll(history).perSecond, history, now, SLOTS, i);
    CountSame(history, InSlots(now, SLOTS), InLastMinute(now));
  }

  /** The sixty slots always count the last minute of the full history exactly when every record is harmless. */
  lemma RingIsExactly(history: seq<Entry>)
    ensures AlwaysExact(history) <==> AllHarmless(history)
  {
    hide Harmless, Until, WindowExact;
    if AllHarmless(history) {
      forall n, now | 0 <= n <= |history| && Until(history[..n], now) ensures WindowExact(history[..n], now) {
        HarmlessPrefix(history, n);
        HarmlessExact(history[..n], now);
      }
    } else {
      var n :| 0 <= n < |history| && !Harmless(history[..n], history[n]);
      HarmfulLoses(history[..n], history[n]);
      assert history[..n] + [history[n]] == history[..n + 1];
    }
  }

  /** Each recorded second is positive and later than every earlier one minus a minute. */
  ghost predicate Prompt(history: seq<Entry>) {
    forall i :: 0 <= i < |history| ==>
      history[i].second > 0 && forall j :: 0 <= j < i ==> history[i].second > history[j].second - 60
  }

  /** Records that come within a minute of the latest one are harmless. */
  lemma PromptIsHarmless(history: seq<Entry>)
    requires Prompt(history)
    ensures AllHarmless(history)
  {
    forall n | 0 <= n < |history| ensures Harmless(history[..n], history[n]) {
      var e := history[n];
      forall x | x in history[..n] && x.second % SLOTS == e.second % SLOTS ensures x.second <= e.second {
        var j :| 0 <= j < n && history[j] == x;
        if x.second > e.second { Congruent(e.second, x.second); }
      }
    }
  }

  function CountAt(m: map<int, nat>): int -> int {
    code => if code in m then m[code] else 0
  }

  /** A request that names no status counts as 200. */
  function WithStatus(code: int): Entry -> bool {
    (e: Entry) => if e.status == 0 then code == 200 else e.status == code
  }

  function WithOutcome(outcome: string): Entry -> bool {
    (e: Entry) => e.outcome == outcome
  }

  ghost predicate Counted(m: Metrics, history: seq<Entry>) {
    && m.total == |history|
    && (forall code :: CountAt(m.statusCode)(code) == CountIf(history, WithStatus(code)))
    && m.rateLimitRejected == CountIf(history, WithOutcome("rejected_rate_limit"))
    && m.authRejected == CountIf(history, WithOutcome("rejected_auth"))
    && m.validationRejected == CountIf(history, WithOutcome("rejected_validation"))
  }

  lemma CountedMore(m: Metrics, history: seq<Entry>, e: Entry)
    requires |m.perSecond| == SLOTS && Counted(m, history)
    ensures Counted(Recorded(m, e), history + [e])
  {
    hide Hit;
    assert (history + [e])[..|history|] == history;
  }

  ghost predicate StatusesAddUp(m: Metrics) {
    Sum(m.statusCode.Keys, CountAt(m.statusCode)) == m.total
  }

  lemma StatusesMore(m: Metrics, e: Entry)
    requires |m.perSecond| == SLOTS && StatusesAddUp(m)
    ensures StatusesAddUp(Recorded(m, e))
  {
    OneMore(m.statusCode, StatusOf(e));
    hide Sum, StatusOf, SlotIndex, Hit;
  }

  lemma NothingCounted()
    ensures Counted(Initial(), []) && StatusesAddUp(Initial())
  {}

  /** Every counter is the exact count over the history, and the status counts sum to the total. */
  lemma {:induction false} CountersExact(history: seq<Entry>)
    ensures Counted(RecordedAll(history), history) && StatusesAddUp(RecordedAll(history))
  {
    hide Counted, StatusesAddUp, Recorded, Initial;
    if history == [] {
      NothingCounted();
    } else {
      var before, e := history[..|history| - 1], history[|history| - 1];
      CountersExact(before);
      assert before + [e] == history;
      CountedMore(RecordedAll(before), before, e);
      StatusesMore(RecordedAll(before), e);
    }
  }

  lemma OneMore(m: map<int, nat>, code: int)
    ensures var m' := m[code := (if code in m then m[code] else 0) + 1];
            Sum(m'.Keys, CountAt(m')) == Sum(m.Keys, CountAt(m)) + 1
  {
    hide Sum;
    var m' := m[code := (if code in m then m[code] else 0) + 1];
    if code in m {
      assert m'.Keys == m.Keys;
      SumChange(m.Keys, CountAt(m), CountAt(m'), code);
    } else {
      SumRemove(m'.Keys, CountAt(m'), code);
      assert m'.Keys - {code} == m.Keys;
      SumSame(m.Keys, CountAt(m), CountAt(m'));
    }
  }

  // ---- the metrics in place -------------------------------------------------------------------------

  datatype Snapshot = Snapshot(
    requestsTotal: nat, requestsLast1m: nat, statusCodeCount: map<string, nat>,
    rateLimitRejected: nat, authRejected: nat, validationRejected: nat)

  class GatewayMetrics {
    var total: nat
    var statusCode: map<int, nat>
    var rateLimitRejected: nat
    var authRejected: nat
    var validationRejected: nat
    const perSecond: array<Slot>

    constructor ()
      ensures Valid() && fresh(perSecond) && View() == Initial()
    {
      total, statusCode := 0, map[];
      rateLimitRejected, authRejected, validationRejected := 0, 0, 0;
      perSecond := new Slot[SLOTS](_ => Slot(0, 0));
      new;
      assert perSecond[..] == Initial().perSecond;
    }

    predicate Valid() {
      perSecond.Length == SLOTS
    }

    function View(): Metrics
      reads this, perSecond
    {
      Metrics(total, statusCode, rateLimitRejected, authRejected, validationRejected, perSecond[..])
    }

    /** The out-parameter says that indexing the ring panicked, after the counters were changed. */
    method Record(status: int, outcome: string, sec: int) returns (panicked: bool)
      requires Valid()
      modifies this, perSecond
      ensures View() == Recorded(old(View()), Entry(status, outcome, sec)) && panicked == Panics(sec)
    {
      var code := if status == 0 then 200 else status;
      total := total + 1;
      statusCode := statusCode[code := (if code in statusCode then statusCode[code] else 0) + 1];
      if outcome == "rejected_rate_limit" { rateLimitRejected := rateLimitRejected + 1; }
      else if outcome == "rejected_auth" { authRejected := authRejected + 1; }
      else if outcome == "rejected_validation" { validationRejected := validationRejected + 1; }
      var idx := SlotIndex(sec);
      SlotIndexExact(sec);
      hide SlotIndex;
      if idx < 0 { return true; }
      HitSlot(idx, sec);
      panicked := false;
    }

    method HitSlot(idx: nat, sec: int)
      requires Valid() && idx < SLOTS
      modifies perSecond
      ensures perSecond[..] == old(perSecond[..])[idx := Hit(old(perSecond[idx]), sec)]
    {
      if perSecond[idx].second != sec { perSecond[idx] := Slot(sec, 0); }
      perSecond[idx] := perSecond[idx].(count := perSecond[idx].count + 1);
    }

    method TakeSnapshot(now: int) returns (out: Snapshot)
      requires Valid()
      ensures out.requestsTotal == total && out.requestsLast1m == RecentIn(View().perSecond, now, SLOTS)
      ensures forall code :: code in statusCode <==> Itoa(code) in out.statusCodeCount
      ensures forall code :: code in statusCode ==> out.statusCodeCount[Itoa(code)] == statusCode[code]
      ensures forall key :: key in out.statusCodeCount ==> exists code :: code in statusCode && key == Itoa(code)
      ensures out.rateLimitRejected == rateLimitRejected && out.authRejected == authRejected
      ensures out.validationRejected == validationRejected
    {
      var recent: nat := 0;
      for i := 0 to perSecond.Length
        invariant recent == RecentIn(View().perSecond, now, i)
      {
        var bucket := perSecond[i];
        if bucket.second == 0 { continue; }
        if now - bucket.second < 60 { recent := recent + bucket.count; }
      }
      var copied := CopyCounts(statusCode);
      out := Snapshot(total, recent, copied, rateLimitRejected, authRejected, validationRejected);
    }

    static method CopyCounts(m: map<int, nat>) returns (out: map<string, nat>)
      ensures forall code :: code in m <==> Itoa(code) in out
      ensures forall code :: code in m ==> out[Itoa(code)] == m[code]
      ensures forall key :: key in out ==> exists code :: code in m && key == Itoa(code)
    {
      hide Itoa;
      out := map[];
      var todo := m.Keys;
      while todo != {}
        invariant todo <= m.Keys
        invariant forall code :: code in m.Keys - todo <==> Itoa(code) in out
        invariant forall code :: code in m.Keys - todo ==> out[Itoa(code)] == m[code]
        invariant forall key :: key in out ==> exists code :: code in m && key == Itoa(code)
        decreases todo
      {
        ghost var some := SomeElement(todo);
        assert some in todo;
        var code :| code in todo;
        forall other ensures Itoa(other) == Itoa(code) ==> other == code { ItoaInjective(other, code); }
        out := out[Itoa(code) := m[code]];
        todo := todo - {code};
      }
    }
  }
}
