/** The `isActive` cache when requests interleave: a filler reads the flag and writes the entry in separate steps,
    and so do the admin write and the invalidation. */
module ActiveCacheRaces {
  import opened RedisService
  import opened Wrappers

  const TTL_MS := ACTIVE_TTL_SECONDS * 1000

  /** `inFlight` holds what each filler (guard, refresh or restore) has read and not yet written. */
  datatype State = State(now: nat, flags: map<string, bool>, store: Store, inFlight: map<nat, (string, bool)>)

  datatype Event =
    | Tick(ms: nat)
    | SetFlag(userId: string, value: bool)
    | Invalidate(userId: string)
    | FillerReads(filler: nat, userId: string)
    | FillerWrites(filler: nat)

  /** A filler that finds no row does not write. */
  function Step(st: State, ev: Event): State {
    match ev
    case Tick(ms) => st.(now := st.now + ms)
    case SetFlag(userId, value) => st.(flags := st.flags[userId := value])
    case Invalidate(userId) => st.(store := st.store - {ActiveKey(userId)})
    case FillerReads(filler, userId) =>
      st.(inFlight := if userId in st.flags then st.inFlight[filler := (userId, st.flags[userId])]
                      else st.inFlight - {filler})
    case FillerWrites(filler) =>
      if filler !in st.inFlight then st
      else
        var (userId, value) := st.inFlight[filler];
        st.(store := CacheActive(st.store, userId, value, st.now), inFlight := st.inFlight - {filler})
  }

  function Run(st: State, events: seq<Event>): State {
    if events == [] then st else Step(Run(st, events[..|events| - 1]), events[|events| - 1])
  }

  /** The answer of `getCachedActiveStatus`. */
  function Hit(st: State, userId: string): Option<bool> {
    CachedActive(st.store, userId, st.now)
  }

  function Entry(value: bool, writtenAt: nat): Item {
    Item(if value then "1" else "0", writtenAt + TTL_MS)
  }

  predicate OfFiller(ev: Event, filler: nat) {
    (ev.FillerReads? || ev.FillerWrites?) && ev.filler == filler
  }

  /** Event r is the last step of the filler, and there it read `value` as the user's flag. */
  ghost predicate ReadBy(st: State, events: seq<Event>, filler: nat, userId: string, value: bool, r: nat) {
    && r < |events| && events[r] == FillerReads(filler, userId)
    && userId in Run(st, events[..r]).flags && Run(st, events[..r]).flags[userId] == value
    && (forall i :: r < i < |events| ==> !OfFiller(events[i], filler))
  }

  /** The filler read the value at event r and, with none of its steps between, wrote the entry at event w. */
  ghost predicate FilledBy(st: State, events: seq<Event>, filler: nat, userId: string, value: bool, r: nat, w: nat) {
    && r < w < |events| && events[w] == FillerWrites(filler)
    && ReadBy(st, events[..w], filler, userId, value, r)
  }

  lemma ReadByLater(st: State, events: seq<Event>, ev: Event, filler: nat, userId: string, value: bool, r: nat)
    requires ReadBy(st, events, filler, userId, value, r) && !OfFiller(ev, filler)
    ensures ReadBy(st, events + [ev], filler, userId, value, r)
  {
    assert (events + [ev])[..r] == events[..r];
  }

  lemma {:induction false} InFlightWasRead(st: State, events: seq<Event>, filler: nat) returns (r: nat)
    requires st.inFlight == map[] && filler in Run(st, events).inFlight
    ensures ReadBy(st, events, filler, Run(st, events).inFlight[filler].0, Run(st, events).inFlight[filler].1, r)
  {
    var init, ev := events[..|events| - 1], events[|events| - 1];
    assert events == init + [ev];
    if OfFiller(ev, filler) {
      r := |init|;
      assert events[..|init|] == init;
    } else {
      r := InFlightWasRead(st, init, filler);
      var (userId, value) := Run(st, events).inFlight[filler];
      ReadByLater(st, init, ev, filler, userId, value, r);
    }
  }

  /** What one step does to the entry of a user: a filler writes it, or it stays or goes. */
  lemma StepOfEntry(st: State, ev: Event, userId: string)
    requires ActiveKey(userId) in Step(st, ev).store
    ensures
      if ev.FillerWrites? && ev.filler in st.inFlight && st.inFlight[ev.filler].0 == userId
      then Step(st, ev).store[ActiveKey(userId)] == Entry(st.inFlight[ev.filler].1, st.now)
      else ActiveKey(userId) in st.store && Step(st, ev).store[ActiveKey(userId)] == st.store[ActiveKey(userId)]
  {
    if ev.FillerWrites? && ev.filler in st.inFlight {
      KeysAreSeparate(userId, st.inFlight[ev.filler].0);
    }
  }

  /** Every entry was put there by a filler that had read it from the table. */
  lemma {:induction false} EntryWasFilled(st: State, events: seq<Event>, userId: string)
    returns (filler: nat, value: bool, r: nat, w: nat)
    requires st.inFlight == map[] && st.store == map[] && ActiveKey(userId) in Run(st, events).store
    ensures FilledBy(st, events, filler, userId, value, r, w)
    ensures Run(st, events).store[ActiveKey(userId)] == Entry(value, Run(st, events[..w]).now)
  {
    hide Step, ReadBy;
    var init, ev := events[..|events| - 1], events[|events| - 1];
    var before := Run(st, init);
    StepOfEntry(before, ev, userId);
    if ev.FillerWrites? && ev.filler in before.inFlight && before.inFlight[ev.filler].0 == userId {
      filler, value, w := ev.filler, before.inFlight[ev.filler].1, |init|;
      r := InFlightWasRead(st, init, filler);
      ReadIsBefore(st, init, filler, userId, value, r);
    } else {
      filler, value, r, w := EntryWasFilled(st, init, userId);
      assert events[..w] == init[..w];
    }
  }

  lemma ReadIsBefore(st: State, events: seq<Event>, filler: nat, userId: string, value: bool, r: nat)
    requires ReadBy(st, events, filler, userId, value, r)
    ensures r < |events|
  {
  }

  lemma {:induction false} TimePasses(st: State, events: seq<Event>, k: nat)
    requires k <= |events|
    ensures Run(st, events[..k]).now <= Run(st, events).now
  {
    if k == |events| {
      assert events[..k] == events;
    } else {
      TimePasses(st, events[..|events| - 1], k);
      assert events[..|events| - 1][..k] == events[..k];
    }
  }

  /** Bounded staleness: a hit returns what one filler read from the table and then wrote, less than 30 seconds plus the
      time from this read to this write ago, however all steps interleave. */
  lemma HitIsRecent(st: State, events: seq<Event>, userId: string) returns (filler: nat, r: nat, w: nat)
    requires st.inFlight == map[] && st.store == map[] && Hit(Run(st, events), userId).Some?
    ensures FilledBy(st, events, filler, userId, Hit(Run(st, events), userId).value, r, w)
    ensures
      var readAt, writtenAt, end := Run(st, events[..r]), Run(st, events[..w]), Run(st, events);
      && userId in readAt.flags && Hit(end, userId) == Some(readAt.flags[userId])
      && end.store[ActiveKey(userId)] == Entry(readAt.flags[userId], writtenAt.now)
      && readAt.now <= writtenAt.now <= end.now
      && end.now - readAt.now < 30_000 + (writtenAt.now - readAt.now)
  {
    var value;
    filler, value, r, w := EntryWasFilled(st, events, userId);
    TimePasses(st, events, w);
    TimePasses(st, events[..w], r);
    assert events[..w][..r] == events[..r];
  }

  /** No filler takes longer than `delay` from its read to its write. */
  ghost predicate QuickFillers(st: State, events: seq<Event>, delay: nat) {
    forall filler: nat, userId, value, r: nat, w: nat :: FilledBy(st, events, filler, userId, value, r, w) ==>
      Run(st, events[..w]).now - Run(st, events[..r]).now <= delay
  }

  /** So, if fillers are that quick, a hit is less than 30 seconds plus their delay old. */
  lemma HitIsFresh(st: State, events: seq<Event>, userId: string, delay: nat) returns (r: nat)
    requires st.inFlight == map[] && st.store == map[] && Hit(Run(st, events), userId).Some?
    requires QuickFillers(st, events, delay)
    ensures r < |events| && userId in Run(st, events[..r]).flags
    ensures Hit(Run(st, events), userId) == Some(Run(st, events[..r]).flags[userId])
    ensures Run(st, events).now - Run(st, events[..r]).now < 30_000 + delay
  {
    var filler, r1, w := HitIsRecent(st, events, userId);
    r := r1;
  }

  ghost predicate FlagUnchangedSince(events: seq<Event>, userId: string, r: nat) {
    forall i :: r <= i < |events| && events[i].SetFlag? ==> events[i].userId != userId
  }

  lemma {:induction false} FlagIsKept(st: State, events: seq<Event>, userId: string, r: nat)
    requires r <= |events| && FlagUnchangedSince(events, userId, r) && userId in Run(st, events[..r]).flags
    ensures userId in Run(st, events).flags && Run(st, events).flags[userId] == Run(st, events[..r]).flags[userId]
  {
    if r == |events| {
      assert events[..r] == events;
    } else {
      var init := events[..|events| - 1];
      assert init[..r] == events[..r];
      assert forall i :: 0 <= i < |init| ==> init[i] == events[i];
      FlagIsKept(st, init, userId, r);
    }
  }

  /** A hit is current whenever the flag was not written since the read that filled its entry. */
  lemma HitIsCurrentIfQuiet(st: State, events: seq<Event>, userId: string) returns (filler: nat, r: nat, w: nat)
    requires st.inFlight == map[] && st.store == map[] && Hit(Run(st, events), userId).Some?
    ensures FilledBy(st, events, filler, userId, Hit(Run(st, events), userId).value, r, w)
    ensures Run(st, events).store[ActiveKey(userId)].expiresAt == Run(st, events[..w]).now + TTL_MS
    ensures FlagUnchangedSince(events, userId, r) ==>
      userId in Run(st, events).flags && Hit(Run(st, events), userId) == Some(Run(st, events).flags[userId])
  {
    filler, r, w := HitIsRecent(st, events, userId);
    if FlagUnchangedSince(events, userId, r) {
      FlagIsKept(st, events, userId, r);
    }
  }

  /** Every answer the cache gives is the flag in the table. */
  ghost predicate Honest(st: State) {
    forall userId :: Hit(st, userId).Some? ==> userId in st.flags && Hit(st, userId) == Some(st.flags[userId])
  }

  lemma StepOfHit(st: State, ev: Event, userId: string)
    ensures
      if ev.FillerWrites? && ev.filler in st.inFlight && st.inFlight[ev.filler].0 == userId
      then Hit(Step(st, ev), userId) == Some(st.inFlight[ev.filler].1)
      else Hit(Step(st, ev), userId).Some? ==> Hit(Step(st, ev), userId) == Hit(st, userId)
  {
    if ActiveKey(userId) in Step(st, ev).store {
      StepOfEntry(st, ev, userId);
    }
  }

  /** The steps that keep the cache honest, exactly: a flag may change only under no entry or an equal one, and a
      filler may write only what the table still holds. */
  lemma HonestStepIff(st: State, ev: Event)
    requires Honest(st)
    ensures Honest(Step(st, ev)) <==>
      match ev
      case SetFlag(userId, value) => Hit(st, userId) in {None, Some(value)}
      case FillerWrites(filler) =>
        filler in st.inFlight ==>
          st.inFlight[filler].0 in st.flags && st.flags[st.inFlight[filler].0] == st.inFlight[filler].1
      case _ => true
  {
    forall userId ensures
      if ev.FillerWrites? && ev.filler in st.inFlight && st.inFlight[ev.filler].0 == userId
      then Hit(Step(st, ev), userId) == Some(st.inFlight[ev.filler].1)
      else Hit(Step(st, ev), userId).Some? ==> Hit(Step(st, ev), userId) == Hit(st, userId)
    {
      StepOfHit(st, ev, userId);
    }
    if ev.SetFlag? {
      assert Hit(Step(st, ev), ev.userId) == Hit(st, ev.userId);
    }
  }

  /** The bound is met: a filler that read before a deactivation and writes d milliseconds later leaves an entry that
      contradicts the table, and is still answered d + 29,999 milliseconds after the table last held its value. */
  lemma HitCanBeOld(now: nat, d: nat)
    ensures
      var st := State(now, map["u" := true], map[], map[]);
      var events := [FillerReads(0, "u"), SetFlag("u", false), Tick(d), FillerWrites(0), Tick(TTL_MS - 1)];
      && Hit(Run(st, events), "u") == Some(true)
      && (forall k :: 2 <= k <= 5 ==> Run(st, events[..k]).flags == map["u" := false])
      && Run(st, events).now == Run(st, events[..2]).now + d + 29_999
  {
    var st := State(now, map["u" := true], map[], map[]);
    var events := [FillerReads(0, "u"), SetFlag("u", false), Tick(d), FillerWrites(0), Tick(TTL_MS - 1)];
    assert events[..0] == [];
    forall k: nat | k < 5 ensures Run(st, events[..k + 1]) == Step(Run(st, events[..k]), events[k]) {
      assert events[..k + 1][..k] == events[..k];
    }
    assert events[..5] == events;
    assert Run(st, events[..1]).inFlight == map[0 := ("u", true)];
    assert Run(st, events[..4]).store[ActiveKey("u")] == Entry(true, now + d);
  }

  /** Every reader of this user's flag that has not written yet holds its present value. */
  ghost predicate NoStaleFiller(st: State, userId: string) {
    userId in st.flags &&
    forall f :: f in st.inFlight && st.inFlight[f].0 == userId ==> st.inFlight[f].1 == st.flags[userId]
  }

  ghost predicate NoSetFlag(events: seq<Event>, userId: string) {
    forall i :: 0 <= i < |events| && events[i].SetFlag? ==> events[i].userId != userId
  }

  /** The entry of this user, if there is one, is right. */
  ghost predicate EntryIsRight(st: State, userId: string) {
    userId in st.flags && (Hit(st, userId).Some? ==> Hit(st, userId) == Some(st.flags[userId]))
  }

  lemma StepStaysRight(st: State, ev: Event, userId: string)
    requires NoStaleFiller(st, userId) && EntryIsRight(st, userId) && (ev.SetFlag? ==> ev.userId != userId)
    ensures NoStaleFiller(Step(st, ev), userId) && EntryIsRight(Step(st, ev), userId)
    ensures userId in st.flags && userId in Step(st, ev).flags
    ensures Step(st, ev).flags[userId] == st.flags[userId]
  {
    hide Hit, CacheActive;
    StepOfHit(st, ev, userId);
  }

  lemma {:induction false} StaysRight(st: State, events: seq<Event>, userId: string)
    requires NoStaleFiller(st, userId) && EntryIsRight(st, userId) && NoSetFlag(events, userId)
    ensures
      var st' := Run(st, events);
      && NoStaleFiller(st', userId) && EntryIsRight(st', userId)
      && userId in st.flags && userId in st'.flags && st'.flags[userId] == st.flags[userId]
  {
    assert userId in st.flags;
    hide Step, NoStaleFiller, EntryIsRight;
    if events != [] {
      var init, last := events[..|events| - 1], events[|events| - 1];
      assert forall i :: 0 <= i < |init| ==> init[i] == events[i];
      StaysRight(st, init, userId);
      StepStaysRight(Run(st, init), last, userId);
    }
  }

  lemma InvalidationRemoves(st: State, userId: string)
    ensures Hit(Step(st, Invalidate(userId)), userId).None?
  {
  }

  lemma StaleFillerSpoils(st: State, userId: string, filler: nat)
    requires filler in st.inFlight && st.inFlight[filler].0 == userId
    ensures Hit(Run(st, [FillerWrites(filler)]), userId) == Some(st.inFlight[filler].1)
  {
    var events := [FillerWrites(filler)];
    assert events[..0] == [];
    StepOfHit(st, FillerWrites(filler), userId);
  }

  /** What an invalidation achieves, exactly: whatever follows, every hit is right until the flag is written again, if
      and only if no filler that has read another value has yet to write it. */
  lemma InvalidationHoldsIff(st: State, userId: string)
    requires userId in st.flags
    ensures
      (forall events :: NoSetFlag(events, userId) ==>
        Hit(Run(Step(st, Invalidate(userId)), events), userId) in {None, Some(st.flags[userId])}) <==>
      NoStaleFiller(st, userId)
  {
    hide Hit;
    var st' := Step(st, Invalidate(userId));
    InvalidationRemoves(st, userId);
    if NoStaleFiller(st, userId) {
      forall events | NoSetFlag(events, userId)
        ensures Hit(Run(st', events), userId) in {None, Some(st.flags[userId])}
      {
        assert EntryIsRight(st', userId) && NoStaleFiller(st', userId);
        StaysRight(st', events, userId);
      }
    } else {
      var f :| f in st.inFlight && st.inFlight[f].0 == userId && st.inFlight[f].1 != st.flags[userId];
      StaleFillerSpoils(st', userId, f);
      assert NoSetFlag([FillerWrites(f)], userId);
    }
  }

  /** In particular an invalidation does not help when the filler writes after it. */
  lemma StaleAfterInvalidation(now: nat)
    ensures
      var st := State(now, map["u" := true], map[], map[]);
      var events := [FillerReads(0, "u"), SetFlag("u", false), Invalidate("u"), FillerWrites(0)];
      Hit(Run(st, events), "u") == Some(true) && Run(st, events).flags == map["u" := false]
  {
    var st := State(now, map["u" := true], map[], map[]);
    var events := [FillerReads(0, "u"), SetFlag("u", false), Invalidate("u"), FillerWrites(0)];
    assert events[..0] == [];
    forall k: nat | k < 4 ensures Run(st, events[..k + 1]) == Step(Run(st, events[..k]), events[k]) {
      assert events[..k + 1][..k] == events[..k];
    }
    assert events[..4] == events;
    assert Run(st, events[..1]).inFlight == map[0 := ("u", true)];
  }
}
