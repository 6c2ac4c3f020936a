/**
 * The raffle store of handlers.py: the table of active raffles keyed by raffle id,
 * kept in insertion order as a Python dict is, and the set of user ids that have
 * won an active raffle. Its operations are joining a raffle from a button press,
 * evicting the oldest raffle, purging raffles not created today, finishing a raffle
 * by drawing a winner, refreshing the countdown, and creating a raffle for a
 * message the classifier accepted.
 */
module Raffles {
  import opened Wrappers
  import opened RaffleView
  import ParkingClassifier

  /** A calendar day, as `date.today()` gives it. */
  datatype Date = Date(year: int, month: int, day: int)

  /** The period, in seconds, of the countdown refresh. */
  const UpdatePeriod: int := 10

  /**
   * A started `threading.Timer`, as a handle: the serial number the store issued it
   * under and its delay in seconds. Whether it was cancelled is recorded by the store.
   */
  datatype TimerHandle = TimerHandle(serial: nat, delay: int)

  /** One entry of `active_raffles`. */
  datatype Raffle = Raffle(
    placeNumber: int,
    participants: seq<int>,
    messageId: int,
    chatId: int,
    timer: Option<TimerHandle>,
    updateTimer: Option<TimerHandle>,
    timestamp: real,
    startTime: real,
    date: Date,
    winnerId: Option<int>)

  /** The timers a raffle holds. */
  function Handles(r: Raffle): set<TimerHandle> {
    (if r.timer.Some? then {r.timer.value} else {})
    + (if r.updateTimer.Some? then {r.updateTimer.value} else {})
  }

  /** `if raffle.get('winner_id'):` is Python truthiness: no winner, or user id 0, is false. */
  predicate HasWinner(r: Raffle) {
    r.winnerId.Some? && r.winnerId.value != 0
  }

  /** The winner set once raffle `r` is removed: its winner, if any, is discarded. */
  function Release(winners: set<int>, r: Raffle): set<int> {
    if HasWinner(r) then winners - {r.winnerId.value} else winners
  }

  predicate NoDuplicates(s: seq<int>) {
    forall i, j :: 0 <= i < j < |s| ==> s[i] != s[j]
  }

  /** No id occurs twice in `s`. */
  predicate DistinctIds(s: seq<string>) {
    s == [] || (s[0] !in s[1..] && DistinctIds(s[1..]))
  }

  /** A position at which `id` occurs in `s`. */
  function IndexIn(s: seq<string>, id: string): (k: nat)
    requires id in s
    ensures k < |s| && s[k] == id
  {
    if s[0] == id then 0 else 1 + IndexIn(s[1..], id)
  }

  /** Appending an id not yet listed keeps the ids distinct. */
  lemma {:induction false} DistinctAppend(s: seq<string>, id: string)
    requires DistinctIds(s) && id !in s
    ensures DistinctIds(s + [id])
  {
    if s != [] {
      assert (s + [id])[1..] == s[1..] + [id];
      DistinctAppend(s[1..], id);
    }
  }

  /** Distinct ids differ at any two positions. */
  lemma {:induction false} DistinctAt(s: seq<string>, i: int, j: int)
    requires DistinctIds(s) && 0 <= i < j < |s|
    ensures s[i] != s[j]
  {
    if i == 0 {
      assert s[j] == s[1..][j - 1];
    } else {
      DistinctAt(s[1..], i - 1, j - 1);
    }
  }

  /** Nobody joined a raffle twice, and a recorded winner is one of its participants. */
  predicate WellFormed(r: Raffle) {
    NoDuplicates(r.participants) && (r.winnerId.Some? ==> r.winnerId.value in r.participants)
  }

  /** The raffle's timers were issued before serial number `next`. */
  predicate IssuedBefore(r: Raffle, next: nat) {
    && (r.timer.Some? ==> r.timer.value.serial < next)
    && (r.updateTimer.Some? ==> r.updateTimer.value.serial < next)
  }

  /** `ids` without `id`, in the same order: `del` on a dict's key order. */
  function Without(ids: seq<string>, id: string): (r: seq<string>)
    ensures forall x :: x in r <==> x in ids && x != id
    ensures DistinctIds(ids) ==> DistinctIds(r)
  {
    if ids == [] then []
    else if ids[0] == id then Without(ids[1..], id)
    else
      var rest := Without(ids[1..], id);
      assert DistinctIds(ids) ==> ids[0] !in rest && DistinctIds(rest);
      [ids[0]] + rest
  }

  /** The ids of `ids` that are in `keep`, in the same order. */
  function KeepOnly(ids: seq<string>, keep: set<string>): (r: seq<string>)
    ensures forall x :: x in r <==> x in ids && x in keep
    ensures DistinctIds(ids) ==> DistinctIds(r)
  {
    if ids == [] then []
    else if ids[0] in keep then [ids[0]] + KeepOnly(ids[1..], keep)
    else KeepOnly(ids[1..], keep)
  }

  lemma {:induction false} KeepEverything(ids: seq<string>, keep: set<string>)
    requires forall x :: x in ids ==> x in keep
    ensures KeepOnly(ids, keep) == ids
  {
    if ids != [] {
      KeepEverything(ids[1..], keep);
    }
  }

  lemma {:induction false} WithoutKeepOnly(ids: seq<string>, keep: set<string>, id: string)
    ensures Without(KeepOnly(ids, keep), id) == KeepOnly(ids, keep - {id})
  {
    if ids != [] {
      WithoutKeepOnly(ids[1..], keep, id);
    }
  }

  /** A map whose keys are exactly the elements of a list without repetitions has its length. */
  lemma {:induction false} CountKeys<V>(ids: seq<string>, m: map<string, V>)
    requires DistinctIds(ids)
    requires forall x :: x in m <==> x in ids
    ensures |m| == |ids|
  {
    if ids != [] {
      var first := ids[0];
      var rest := ids[1..];
      assert forall x :: x in rest <==> x in ids && x != first;
      CountKeys(rest, m - {first});
      assert m.Keys == (m - {first}).Keys + {first};
    }
  }

  /** The winners released when the raffles whose ids are `ids` are removed. */
  function ReleasedBy(m: map<string, Raffle>, ids: set<string>): set<int> {
    set id | id in ids && id in m && HasWinner(m[id]) :: m[id].winnerId.value
  }

  /** The timers held by the raffles whose ids are `ids`. */
  function HandlesOf(m: map<string, Raffle>, ids: set<string>): set<TimerHandle> {
    set id, t | id in ids && id in m && t in Handles(m[id]) :: t
  }

  /** The ids of the raffles not created on day `today`. */
  function StaleIn(m: map<string, Raffle>, today: Date): set<string> {
    set id | id in m && m[id].date != today
  }

  /** The raffles created on day `today`. */
  function CreatedOn(m: map<string, Raffle>, today: Date): map<string, Raffle> {
    map id | id in m && m[id].date == today :: m[id]
  }

  /** Raffle `id` of `m` has the smallest timestamp there. */
  predicate IsOldest(m: map<string, Raffle>, id: string) {
    id in m && forall k :: k in m ==> m[id].timestamp <= m[k].timestamp
  }

  /**
   * The eviction `handle_text_message` makes once the purge left `current`: the raffle
   * with the smallest timestamp, exactly when `current` is non-empty and at the limit.
   */
  predicate EvictionChoice(current: map<string, Raffle>, maxActive: int, evicted: Option<string>) {
    && (evicted.Some? <==> current != map[] && |current| >= maxActive)
    && (evicted.Some? ==> IsOldest(current, evicted.value))
  }

  /** The raffles left once `evicted`, if any, is deleted. */
  function AfterEviction(current: map<string, Raffle>, evicted: Option<string>): map<string, Raffle> {
    if evicted.Some? then current - {evicted.value} else current
  }

  /** The winners left once the raffle `evicted` of `m`, if any, has released its winner. */
  function ReleaseEvicted(m: map<string, Raffle>, winners: set<int>, evicted: Option<string>): set<int> {
    if evicted.Some? && evicted.value in m then Release(winners, m[evicted.value]) else winners
  }

  /** The timers of the raffle `evicted` of `m`, if any. */
  function EvictedHandles(m: map<string, Raffle>, evicted: Option<string>): set<TimerHandle> {
    if evicted.Some? && evicted.value in m then Handles(m[evicted.value]) else {}
  }

  /**
   * The winners left once the raffles of `m` not created `today` and then the
   * evicted raffle have released theirs.
   */
  function WinnersLeft(m: map<string, Raffle>, winners: set<int>, today: Date, evicted: Option<string>): set<int> {
    ReleaseEvicted(CreatedOn(m, today), winners - ReleasedBy(m, StaleIn(m, today)), evicted)
  }

  /** The raffles left by the purge of day `today` and the eviction of `evicted`. */
  function Kept(m: map<string, Raffle>, today: Date, evicted: Option<string>): map<string, Raffle> {
    AfterEviction(CreatedOn(m, today), evicted)
  }

  /**
   * A raffle just recorded: no participants or winner, stamped `now` and `today`, its
   * end timer and refresh timer issued under serials `serial` and `serial + 1`.
   */
  function NewRaffle(placeNumber: int, messageId: int, chatId: int, now: real, today: Date,
                     timerSeconds: int, serial: nat): (r: Raffle)
    ensures r.placeNumber == placeNumber && r.participants == [] && r.winnerId == None
    ensures r.messageId == messageId && r.chatId == chatId
    ensures r.timer == Some(TimerHandle(serial, timerSeconds))
    ensures r.updateTimer == Some(TimerHandle(serial + 1, UpdatePeriod))
    ensures r.timestamp == now && r.startTime == now && r.date == today
    ensures WellFormed(r) && IssuedBefore(r, serial + 2) && !IssuedBefore(r, serial + 1)
  {
    Raffle(placeNumber, [], messageId, chatId, Some(TimerHandle(serial, timerSeconds)),
           Some(TimerHandle(serial + 1, UpdatePeriod)), now, now, today, None)
  }

  /** `ids` with `id` appended unless it is there already: assignment to a dict key. */
  function Appended(ids: seq<string>, id: string): seq<string> {
    if id in ids then ids else ids + [id]
  }

  /** `if is_parking and place_number:`: a place number of 0 is falsy. */
  predicate Triggers(v: ParkingClassifier.Verdict) {
    v.isParking && v.place.Some? && v.place.value != 0
  }

  /**
   * The store's invariant: the order lists every active raffle once; every raffle is
   * well formed and holds timers issued before serial `next`, as are the cancelled ones.
   */
  ghost predicate Consistent(order: seq<string>, raffles: map<string, Raffle>, cancelled: set<TimerHandle>, next: nat) {
    && DistinctIds(order)
    && (forall id :: id in raffles <==> id in order)
    && (forall id :: id in raffles ==> WellFormed(raffles[id]) && IssuedBefore(raffles[id], next))
    && (forall t :: t in cancelled ==> t.serial < next)
  }

  /** Deleting a raffle and cancelling its timers keeps the invariant. */
  lemma DiscardConsistent(order: seq<string>, raffles: map<string, Raffle>, cancelled: set<TimerHandle>, next: nat, id: string)
    requires Consistent(order, raffles, cancelled, next) && id in raffles
    ensures Consistent(Without(order, id), raffles - {id}, cancelled + Handles(raffles[id]), next)
  {
  }

  /** Recording a well-formed raffle whose timers are the next two issued keeps the invariant. */
  lemma InsertConsistent(order: seq<string>, raffles: map<string, Raffle>, cancelled: set<TimerHandle>, next: nat,
                         id: string, r: Raffle)
    requires Consistent(order, raffles, cancelled, next)
    requires WellFormed(r) && IssuedBefore(r, next + 2)
    ensures Consistent(Appended(order, id), raffles[id := r], cancelled, next + 2)
  {
    if id !in order {
      DistinctAppend(order, id);
    }
  }

  /**
   * What a button press does, as `handle_callback` answers it; after a join the button
   * is redrawn as `ButtonText(participantsCount)`.
   */
  datatype JoinOutcome = NotAJoin | Ended | AlreadyJoined | AlreadyWon | Joined(participantsCount: nat)

  class RaffleStore {
    /** The keys of `active_raffles` in insertion order. */
    var order: seq<string>
    /** `active_raffles`. */
    var raffles: map<string, Raffle>
    /** `active_winners`. */
    var winners: set<int>
    /** The timers that have been cancelled. */
    var cancelled: set<TimerHandle>
    /** The serial number the next started timer gets. */
    var nextSerial: nat
    /** `MAX_ACTIVE_RAFFLES`. */
    const maxActive: int
    /** `RAFFLE_TIMER_SECONDS`. */
    const timerSeconds: int

    ghost predicate Valid()
      reads this
    {
      Consistent(order, raffles, cancelled, nextSerial)
    }

    /** `len(active_raffles)` never exceeds `MAX_ACTIVE_RAFFLES`. */
    ghost predicate WithinCapacity()
      reads this
    {
      |raffles| <= maxActive
    }

    constructor (maxActive: int, timerSeconds: int)
      ensures Valid() && (WithinCapacity() <==> maxActive >= 0)
      ensures order == [] && raffles == map[] && winners == {} && cancelled == {}
      ensures this.maxActive == maxActive && this.timerSeconds == timerSeconds
    {
      this.maxActive := maxActive;
      this.timerSeconds := timerSeconds;
      order := [];
      raffles := map[];
      winners := {};
      cancelled := {};
      nextSerial := 0;
    }

    lemma SizeIsOrderLength()
      requires Valid()
      ensures |raffles| == |order|
    {
      CountKeys(order, raffles);
    }

    /** `threading.Timer(delay, ...).start()`: a timer with a serial number not issued before. */
    method StartTimer(delay: int) returns (t: TimerHandle)
      modifies this
      ensures t == TimerHandle(old(nextSerial), delay) && nextSerial == old(nextSerial) + 1
      ensures order == old(order) && raffles == old(raffles) && winners == old(winners)
      ensures cancelled == old(cancelled)
    {
      t := TimerHandle(nextSerial, delay);
      nextSerial := nextSerial + 1;
    }

    /**
     * `handle_callback`: a press on raffle `id`'s button is refused when the raffle is
     * no longer active, then when the user already takes part, then when the user
     * has won an active raffle; otherwise the user is appended to the participants.
     */
    method HandleCallback(data: string, userId: int) returns (outcome: JoinOutcome)
      requires Valid()
      modifies this
      ensures Valid()
      ensures order == old(order) && winners == old(winners)
      ensures cancelled == old(cancelled) && nextSerial == old(nextSerial)
      ensures WantedRaffle(data).None? ==> outcome == NotAJoin && raffles == old(raffles)
      ensures WantedRaffle(data).Some? ==>
        var id := WantedRaffle(data).value;
        if id !in old(raffles) then outcome == Ended && raffles == old(raffles)
        else
          var r := old(raffles)[id];
          if userId in r.participants then outcome == AlreadyJoined && raffles == old(raffles)
          else if userId in old(winners) then outcome == AlreadyWon && raffles == old(raffles)
          else
            && outcome == Joined(|r.participants| + 1)
            && raffles == old(raffles)[id := r.(participants := r.participants + [userId])]
    {
      var wanted := WantedRaffle(data);
      if wanted.None? {
        return NotAJoin;
      }
      var id := wanted.value;
      if id !in raffles {
        return Ended;
      }
      var r := raffles[id];
      if userId in r.participants {
        return AlreadyJoined;
      }
      if userId in winners {
        return AlreadyWon;
      }
      var joined := r.(participants := r.participants + [userId]);
      raffles := raffles[id := joined];
      outcome := Joined(|joined.participants|);
    }

    /**
     * `min(active_raffles.items(), key=timestamp)[0]`: the first raffle, in insertion
     * order, with the smallest timestamp; none when the store is empty.
     */
    method OldestId() returns (oldest: Option<string>)
      requires Valid()
      ensures oldest.None? <==> raffles == map[]
      ensures oldest.Some? ==> oldest.value in raffles
      ensures oldest.Some? ==>
        forall id :: id in raffles ==> raffles[oldest.value].timestamp <= raffles[id].timestamp
      ensures oldest.Some? ==>
        forall i, j :: 0 <= i < j < |order| && order[j] == oldest.value ==>
          raffles[order[i]].timestamp > raffles[oldest.value].timestamp
    {
      if order == [] {
        assert raffles.Keys == {};
        return None;
      }
      var best, i := 0, 1;
      while i < |order|
        invariant 0 <= best < i <= |order|
        invariant forall k :: 0 <= k < i ==> raffles[order[best]].timestamp <= raffles[order[k]].timestamp
        invariant forall k :: 0 <= k < best ==> raffles[order[k]].timestamp > raffles[order[best]].timestamp
      {
        if raffles[order[i]].timestamp < raffles[order[best]].timestamp {
          best := i;
        }
        i := i + 1;
      }
      assert forall id :: id in raffles ==> exists k :: 0 <= k < |order| && order[k] == id;
      forall i, j | 0 <= i < j < |order| && order[j] == order[best]
        ensures raffles[order[i]].timestamp > raffles[order[best]].timestamp
      {
        if j != best {
          if j < best {
            DistinctAt(order, j, best);
          } else {
            DistinctAt(order, best, j);
          }
        }
      }
      oldest := Some(order[best]);
    }

    /**
     * The removal step shared by `remove_oldest_raffle` and `cleanup_old_raffles`:
     * the raffle's winner, if any, is released, its timers are cancelled and it is deleted.
     */
    method Discard(id: string)
      requires Valid() && id in raffles
      modifies this
      ensures Valid()
      ensures raffles == old(raffles) - {id}
      ensures order == Without(old(order), id)
      ensures winners == Release(old(winners), old(raffles)[id])
      ensures cancelled == old(cancelled) + Handles(old(raffles)[id])
      ensures nextSerial == old(nextSerial)
    {
      var r := raffles[id];
      DiscardConsistent(order, raffles, cancelled, nextSerial, id);
      winners := Release(winners, r);
      cancelled := cancelled + Handles(r);
      raffles := raffles - {id};
      order := Without(order, id);
    }

    /**
     * `remove_oldest_raffle`: nothing on an empty store; otherwise the oldest raffle's
     * winner is released, its timers are cancelled and it is deleted.
     */
    method RemoveOldest() returns (evicted: Option<string>)
      requires Valid()
      modifies this
      ensures Valid() && nextSerial == old(nextSerial)
      ensures evicted.None? <==> old(raffles) == map[]
      ensures evicted.Some? ==> IsOldest(old(raffles), evicted.value)
      ensures evicted.Some? ==>
        forall i, j :: 0 <= i < j < |old(order)| && old(order)[j] == evicted.value ==>
          old(raffles)[old(order)[i]].timestamp > old(raffles)[evicted.value].timestamp
      ensures raffles == AfterEviction(old(raffles), evicted)
      ensures order == if evicted.Some? then Without(old(order), evicted.value) else old(order)
      ensures winners == ReleaseEvicted(old(raffles), old(winners), evicted)
      ensures cancelled == old(cancelled) + EvictedHandles(old(raffles), evicted)
    {
      evicted := OldestId();
      if evicted.Some? {
        Discard(evicted.value);
      }
    }

    /** The first loop of `cleanup_old_raffles`: the ids of raffles not created today. */
    method StaleIds(today: Date) returns (stale: seq<string>)
      requires Valid()
      ensures DistinctIds(stale)
      ensures forall id :: id in stale <==> id in raffles && raffles[id].date != today
    {
      stale := [];
      var i := 0;
      while i < |order|
        invariant 0 <= i <= |order|
        invariant DistinctIds(stale)
        invariant forall id :: id in stale <==> id in order[..i] && raffles[id].date != today
      {
        assert order[..i + 1] == order[..i] + [order[i]];
        if raffles[order[i]].date != today {
          if order[i] in stale {
            DistinctAt(order, IndexIn(order[..i], order[i]), i);
          }
          DistinctAppend(stale, order[i]);
          stale := stale + [order[i]];
        }
        i := i + 1;
      }
      assert order[..i] == order;
    }

    /**
     * `cleanup_old_raffles`: every raffle not created on `today` has its winner
     * released and its timers cancelled, and is deleted; the others stay, in order.
     */
    method CleanupOldRaffles(today: Date)
      requires Valid()
      modifies this
      ensures Valid() && nextSerial == old(nextSerial)
      ensures raffles == CreatedOn(old(raffles), today)
      ensures order == KeepOnly(old(order), raffles.Keys)
      ensures winners == old(winners) - ReleasedBy(old(raffles), StaleIn(old(raffles), today))
      ensures cancelled == old(cancelled) + HandlesOf(old(raffles), StaleIn(old(raffles), today))
    {
      var stale := StaleIds(today);
      ghost var m := raffles;
      ghost var done: set<string> := {};
      KeepEverything(order, raffles.Keys);
      assert Except(m, done) == m;
      var i := 0;
      while i < |stale|
        invariant 0 <= i <= |stale|
        invariant Valid() && nextSerial == old(nextSerial)
        invariant forall k :: k in done <==> k in stale[..i]
        invariant raffles == Except(m, done)
        invariant order == KeepOnly(old(order), raffles.Keys)
        invariant winners == old(winners) - ReleasedBy(m, done)
        invariant cancelled == old(cancelled) + HandlesOf(m, done)
      {
        var id := stale[i];
        assert stale[..i + 1] == stale[..i] + [id];
        if id in stale[..i] {
          DistinctAt(stale, IndexIn(stale[..i], id), i);
        }
        ExceptStep(m, done, id);
        ReleaseStep(old(winners), m, done, id);
        HandlesOfStep(m, done, id);
        WithoutKeepOnly(old(order), raffles.Keys, id);
        Discard(id);
        done := done + {id};
        i := i + 1;
      }
      assert stale[..i] == stale;
      assert done == StaleIn(m, today);
      ExceptStale(m, today);
    }

    /**
     * `finish_raffle` when raffle `id`'s countdown ends. A raffle no longer active is
     * left alone. With participants, the one at `pick` (the draw of `random.choice`)
     * becomes the winner, is recorded on the raffle and joins the winners, and the
     * congratulation is posted. The refresh timer is then cancelled, unless posting
     * the congratulation failed (`sent` false), which ends the call before that step.
     * The raffle stays in the store.
     */
    method Finish(id: string, pick: nat, sent: bool) returns (winner: Option<int>)
      requires Valid()
      modifies this
      ensures Valid() && order == old(order) && nextSerial == old(nextSerial)
      ensures winner.Some? <==> id in old(raffles) && old(raffles)[id].participants != []
      ensures winner.None? ==> raffles == old(raffles) && winners == old(winners)
      ensures winner.Some? ==>
        var r := old(raffles)[id];
        && winner.value in r.participants
        && winner.value == r.participants[pick % |r.participants|]
        && raffles == old(raffles)[id := r.(winnerId := winner)]
        && winners == old(winners) + {winner.value}
      ensures cancelled == old(cancelled) +
        (if id in old(raffles) && old(raffles)[id].updateTimer.Some?
            && (old(raffles)[id].participants == [] || sent)
         then {old(raffles)[id].updateTimer.value} else {})
    {
      winner := None;
      if id !in raffles {
        return;
      }
      var r := raffles[id];
      if r.participants != [] {
        var chosen := r.participants[pick % |r.participants|];
        raffles := raffles[id := r.(winnerId := Some(chosen))];
        winners := winners + {chosen};
        winner := Some(chosen);
        if !sent {
          return;
        }
      }
      if r.updateTimer.Some? {
        cancelled := cancelled + {r.updateTimer.value};
      }
    }

    /**
     * `update_raffle_message`: for an active raffle, the countdown shown is the whole
     * seconds left of the timer at time `now`, with its participant count; while time
     * is left a new refresh timer is started for the raffle.
     */
    method Refresh(id: string, now: real) returns (view: Option<Announcement>)
      requires Valid()
      modifies this
      ensures Valid()
      ensures order == old(order) && winners == old(winners) && cancelled == old(cancelled)
      ensures id !in old(raffles) ==> view == None && raffles == old(raffles) && nextSerial == old(nextSerial)
      ensures id in old(raffles) ==>
        var r := old(raffles)[id];
        var remaining := Remaining(timerSeconds, now - r.startTime);
        && view == Some(Render(id, r.placeNumber, remaining, |r.participants|))
        && (remaining <= 0 ==> raffles == old(raffles) && nextSerial == old(nextSerial))
        && (remaining > 0 ==>
              && raffles == old(raffles)[id := r.(updateTimer := Some(TimerHandle(old(nextSerial), UpdatePeriod)))]
              && nextSerial == old(nextSerial) + 1)
    {
      if id !in raffles {
        return None;
      }
      var r := raffles[id];
      var remaining := Remaining(timerSeconds, now - r.startTime);
      view := Some(Render(id, r.placeNumber, remaining, |r.participants|));
      if remaining > 0 {
        var next := StartTimer(UpdatePeriod);
        raffles := raffles[id := r.(updateTimer := Some(next))];
      }
    }

    /**
     * The first steps of `handle_text_message` for a raffle-worthy message: raffles
     * not created `today` are purged, then the oldest raffle is evicted when the store
     * still holds `MAX_ACTIVE_RAFFLES` or more.
     */
    method MakeRoom(today: Date) returns (ghost evicted: Option<string>)
      requires Valid()
      modifies this
      ensures Valid() && nextSerial == old(nextSerial)
      ensures maxActive >= 1 && old(WithinCapacity()) ==> |raffles| < maxActive
      ensures EvictionChoice(CreatedOn(old(raffles), today), maxActive, evicted)
      ensures raffles == Kept(old(raffles), today, evicted)
      ensures order == KeepOnly(old(order), raffles.Keys)
      ensures winners == WinnersLeft(old(raffles), old(winners), today, evicted)
      ensures cancelled == old(cancelled) + HandlesOf(old(raffles), StaleIn(old(raffles), today))
             + EvictedHandles(CreatedOn(old(raffles), today), evicted)
    {
      CleanupOldRaffles(today);
      ghost var current := raffles;
      SubsetSize(current.Keys, old(raffles).Keys);
      SizeIsOrderLength();
      evicted := None;
      if |raffles| >= maxActive {
        evicted := RemoveOldest();
        if evicted.Some? {
          WithoutKeepOnly(old(order), current.Keys, evicted.value);
          assert raffles.Keys == current.Keys - {evicted.value};
        }
      }
    }

    /**
     * The last steps of `handle_text_message`: raffle `id` is recorded with no
     * participants, stamped `now` and `today`, and its end timer and refresh timer are
     * started. An id already present keeps its place in the order.
     */
    method Insert(id: string, placeNumber: int, messageId: int, chatId: int, now: real, today: Date)
      requires Valid()
      modifies this
      ensures Valid() && winners == old(winners) && cancelled == old(cancelled)
      ensures order == Appended(old(order), id)
      ensures raffles == old(raffles)[id := NewRaffle(placeNumber, messageId, chatId, now, today, timerSeconds, old(nextSerial))]
      ensures nextSerial == old(nextSerial) + 2
      ensures |raffles| <= |old(raffles)| + 1
    {
      var r := NewRaffle(placeNumber, messageId, chatId, now, today, timerSeconds, nextSerial);
      InsertConsistent(order, raffles, cancelled, nextSerial, id, r);
      order, raffles, nextSerial := Appended(order, id), raffles[id := r], nextSerial + 2;
    }

    /**
     * `handle_text_message` once the classifier has given `verdict` on message
     * `messageId` of chat `chatId`. A verdict without a non-zero place does nothing.
     * Otherwise room is made, and the announcement is posted as a reply; `reply` is
     * the posted message's id, none when posting failed, in which case nothing is
     * recorded. A posted raffle is recorded under its id with two new timers.
     */
    method HandleTextMessage(chatId: int, messageId: int, verdict: ParkingClassifier.Verdict,
                             reply: Option<int>, now: real, today: Date)
      returns (posted: Option<Announcement>, created: Option<string>, ghost evicted: Option<string>)
      requires Valid()
      modifies this
      ensures Valid()
      ensures maxActive >= 1 && old(WithinCapacity()) ==> WithinCapacity()
      ensures !Triggers(verdict) ==>
        && posted == None && created == None && evicted == None
        && raffles == old(raffles) && order == old(order) && winners == old(winners)
        && cancelled == old(cancelled) && nextSerial == old(nextSerial)
      ensures Triggers(verdict) ==>
        && posted == Some(Render(RaffleId(chatId, messageId), verdict.place.value, timerSeconds, 0))
        && EvictionChoice(CreatedOn(old(raffles), today), maxActive, evicted)
        && winners == WinnersLeft(old(raffles), old(winners), today, evicted)
        && cancelled == old(cancelled) + HandlesOf(old(raffles), StaleIn(old(raffles), today))
             + EvictedHandles(CreatedOn(old(raffles), today), evicted)
      ensures Triggers(verdict) && reply.None? ==>
        && created == None && nextSerial == old(nextSerial)
        && raffles == Kept(old(raffles), today, evicted)
        && order == KeepOnly(old(order), raffles.Keys)
      ensures Triggers(verdict) && reply.Some? ==>
        var id := RaffleId(chatId, messageId);
        var kept := Kept(old(raffles), today, evicted);
        && created == Some(id) && nextSerial == old(nextSerial) + 2
        && raffles == kept[id := NewRaffle(verdict.place.value, reply.value, chatId, now, today, timerSeconds, old(nextSerial))]
        && order == Appended(KeepOnly(old(order), kept.Keys), id)
    {
      posted, created, evicted := None, None, None;
      if !Triggers(verdict) {
        return;
      }
      evicted := MakeRoom(today);
      var id := RaffleId(chatId, messageId);
      posted := Some(Render(id, verdict.place.value, timerSeconds, 0));
      if reply.None? {
        return;
      }
      Insert(id, verdict.place.value, reply.value, chatId, now, today);
      created := Some(id);
    }
  }

  /** A subset is no larger than its superset. */
  lemma {:induction false} SubsetSize(a: set<string>, b: set<string>)
    requires a <= b
    ensures |a| <= |b|
  {
    if a != {} {
      var x :| x in a;
      SubsetSize(a - {x}, b - {x});
    }
  }

  /** The raffles of `m` other than those whose ids are in `ids`. */
  function Except(m: map<string, Raffle>, ids: set<string>): map<string, Raffle> {
    map k | k in m && k !in ids :: m[k]
  }

  lemma ExceptStep(m: map<string, Raffle>, done: set<string>, id: string)
    ensures Except(m, done + {id}) == Except(m, done) - {id}
  {
  }

  /** Removing the raffles not created `today` leaves those created `today`. */
  lemma ExceptStale(m: map<string, Raffle>, today: Date)
    ensures Except(m, StaleIn(m, today)) == CreatedOn(m, today)
  {
  }

  /** Releasing one more raffle's winner is removing it from what is left. */
  lemma ReleaseStep(winners: set<int>, m: map<string, Raffle>, done: set<string>, id: string)
    requires id in m
    ensures Release(winners - ReleasedBy(m, done), m[id]) == winners - ReleasedBy(m, done + {id})
  {
  }

  /** The timers of one more raffle are those of the others and its own. */
  lemma HandlesOfStep(m: map<string, Raffle>, done: set<string>, id: string)
    requires id in m
    ensures HandlesOf(m, done + {id}) == HandlesOf(m, done) + Handles(m[id])
  {
  }
}
