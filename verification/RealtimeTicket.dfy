/**
 One-time realtime tickets: issuing under a short lifetime with three tries for a free credential, and
 consuming against a store whose entries vanish when read and when their time is up. Times are
 nanoseconds, lifetimes whole milliseconds.
 */
module RealtimeTicket {
  import opened Common

  type Time = int
  type Digest = nat

  const MILLISECOND: int := 1_000_000
  const MAX_TICKET_LIFETIME: int := 30_000 * MILLISECOND
  const MAX_CREDENTIAL_ATTEMPTS := 3

  datatype Error = ContractUpgradeRequired | AuthenticationRequired | AuthenticationFailed | Unavailable

  /** Who a ticket speaks for; `supported` is whether its contract version is one the server accepts. */
  datatype Record = Record(user: nat, session: nat, supported: bool, accessExpires: Time)

  datatype Identity = Identity(user: nat, session: nat, accessExpires: Option<Time>)

  /**
   A stored ticket; `serial` tells it apart from every other one ever stored, `read` is the server's clock
   when it was issued and `put` the store's clock when it was stored.
   */
  datatype Entry = Entry(serial: nat, record: Record, read: Time, put: Time, ttl: nat)

  /** A session that a ticket opened: when the store gave the ticket up, and the server's clock after that. */
  datatype Opening = Opening(entry: Entry, at: Time, clock: Time)

  datatype State = State(entries: map<Digest, Entry>, stored: nat, openings: seq<Opening>, now: Time)

  // ---------------------------------------------------------------------------------------
  // Lifetimes
  // ---------------------------------------------------------------------------------------

  function Earlier(a: Time, b: Time): Time {
    if a < b then a else b
  }

  /** The whole milliseconds from `now` to `expires`; an identity without one left is refused. */
  function PositiveTtl(now: Time, expires: Time): Result<nat, Error> {
    if expires - now < MILLISECOND then Err(AuthenticationRequired)
    else Ok((expires - now) / MILLISECOND)
  }

  /** The announced expiry. */
  function Announced(now: Time, access: Time): Time {
    Earlier(access, now + MAX_TICKET_LIFETIME)
  }

  /** A ticket lives at least a millisecond, at most thirty seconds and never past the announced expiry. */
  lemma LifetimeIsBounded(now: Time, access: Time)
    ensures PositiveTtl(now, Announced(now, access)).Ok? <==> access - now >= MILLISECOND
    ensures PositiveTtl(now, Announced(now, access)).Ok? ==>
      var ttl := PositiveTtl(now, Announced(now, access)).value;
      && 0 < ttl <= 30_000
      && now + ttl * MILLISECOND <= Announced(now, access) < now + (ttl + 1) * MILLISECOND
  {
  }

  function Dies(e: Entry): Time {
    e.put + e.ttl * MILLISECOND
  }

  function AnnouncedFor(e: Entry): Time {
    Announced(e.read, e.record.accessExpires)
  }

  predicate Visible(s: State, d: Digest, at: Time) {
    d in s.entries && at < Dies(s.entries[d])
  }

  // ---------------------------------------------------------------------------------------
  // The store's steps
  // ---------------------------------------------------------------------------------------

  /**
   A put that only succeeds on a free key, with the lifetime computed from the clock read before it, and a
   read that removes; `clock` is read after its reply, if any.
   */
  datatype Step =
    | Put(digest: Digest, record: Record, read: Time, at: Time)
    | Take(digest: Digest, at: Time, clock: Time, delivered: bool)

  predicate Enabled(s: State, step: Step) {
    && s.now <= step.at
    && (step.Put? ==> PositiveTtl(step.read, Announced(step.read, step.record.accessExpires)).Ok?)
  }

  /** The server's clock and the store's show one time line. */
  predicate Agrees(step: Step) {
    match step
    case Put(_, _, read, at) => read <= at
    case Take(_, at, clock, _) => at <= clock
  }

  /** The record still speaks for a live access token and a supported contract. */
  predicate Opens(record: Record, clock: Time) {
    clock < record.accessExpires && record.supported
  }

  function Stored(serial: nat, record: Record, read: Time, at: Time): Entry
    requires PositiveTtl(read, Announced(read, record.accessExpires)).Ok?
  {
    Entry(serial, record, read, at, PositiveTtl(read, Announced(read, record.accessExpires)).value)
  }

  function Apply(s: State, step: Step): State
    requires Enabled(s, step)
  {
    match step
    case Put(d, record, read, at) =>
      if Visible(s, d, at) then s.(now := at)
      else s.(entries := s.entries[d := Stored(s.stored, record, read, at)], stored := s.stored + 1, now := at)
    case Take(d, at, clock, delivered) =>
      if !Visible(s, d, at) then s.(now := at)
      else s.(entries := s.entries - {d}, now := at,
              openings := if delivered && Opens(s.entries[d].record, clock)
                          then s.openings + [Opening(s.entries[d], at, clock)] else s.openings)
  }

  /** `steps` leads from `s` to `t`; if `agree`, all its clocks show one time line. */
  ghost predicate Runs(agree: bool, s: State, steps: seq<Step>, t: State)
    decreases |steps|
  {
    if steps == [] then s == t
    else
      && Enabled(s, steps[0]) && (agree ==> Agrees(steps[0]))
      && Runs(agree, Apply(s, steps[0]), steps[1..], t)
  }

  const EMPTY := State(map[], 0, [], 0)

  ghost predicate Leads(agree: bool, s: State, t: State) {
    exists steps :: Runs(agree, s, steps, t)
  }

  ghost predicate Reachable(agree: bool, t: State) {
    Leads(agree, EMPTY, t)
  }

  // ---------------------------------------------------------------------------------------
  // Every run
  // ---------------------------------------------------------------------------------------

  /** The lifetime is the one the issuing clock allowed. */
  predicate EntryOk(e: Entry) {
    PositiveTtl(e.read, AnnouncedFor(e)) == Ok(e.ttl)
  }

  /** Stored tickets have serials of their own, and none of them has opened a session. */
  ghost predicate EntriesOk(entries: map<Digest, Entry>, stored: nat, openings: seq<Opening>, now: Time) {
    && (forall d :: d in entries ==> entries[d].serial < stored && entries[d].put <= now && EntryOk(entries[d]))
    && (forall d, e :: d in entries && e in entries && entries[d].serial == entries[e].serial ==> d == e)
    && (forall i, d :: 0 <= i < |openings| && d in entries ==> openings[i].entry.serial != entries[d].serial)
  }

  /**
   By the store's clock, no earlier than stored, within the lifetime and thirty seconds; by the server's,
   before the access token expires. On one time line the store's moment is before that, too.
   */
  predicate OpenedInTime(agree: bool, o: Opening) {
    && o.entry.put <= o.at < Dies(o.entry) && o.at < o.entry.put + MAX_TICKET_LIFETIME
    && o.clock < o.entry.record.accessExpires && o.entry.record.supported
    && (agree ==> o.at <= o.clock)
  }

  ghost predicate OpeningsOk(agree: bool, openings: seq<Opening>, stored: nat) {
    && (forall i :: 0 <= i < |openings| ==> openings[i].entry.serial < stored && OpenedInTime(agree, openings[i]))
    && (forall i, j :: 0 <= i < j < |openings| ==> openings[i].entry.serial != openings[j].entry.serial)
  }

  ghost predicate Inv(agree: bool, s: State) {
    EntriesOk(s.entries, s.stored, s.openings, s.now) && OpeningsOk(agree, s.openings, s.stored)
  }

  lemma PutKeepsEntries(entries: map<Digest, Entry>, stored: nat, openings: seq<Opening>, now: Time, d: Digest, e: Entry)
    requires EntriesOk(entries, stored, openings, now) && OpeningsOk(false, openings, stored)
    requires e.serial == stored && now <= e.put && EntryOk(e)
    ensures EntriesOk(entries[d := e], stored + 1, openings, e.put)
  {
  }

  lemma TakeKeepsEntries(entries: map<Digest, Entry>, stored: nat, openings: seq<Opening>, now: Time, d: Digest,
                         at: Time, clock: Time)
    requires EntriesOk(entries, stored, openings, now) && d in entries && now <= at
    ensures EntriesOk(entries - {d}, stored, openings, at)
    ensures EntriesOk(entries - {d}, stored, openings + [Opening(entries[d], at, clock)], at)
  {
  }

  lemma OpenKeepsOpenings(agree: bool, s: State, d: Digest, at: Time, clock: Time)
    requires Inv(agree, s) && Visible(s, d, at) && s.now <= at && (agree ==> at <= clock) && Opens(s.entries[d].record, clock)
    ensures OpeningsOk(agree, s.openings + [Opening(s.entries[d], at, clock)], s.stored)
  {
    LifetimeIsBounded(s.entries[d].read, s.entries[d].record.accessExpires);
  }

  lemma StepKeepsInv(agree: bool, s: State, step: Step)
    requires Inv(agree, s) && Enabled(s, step) && (agree ==> Agrees(step))
    ensures Inv(agree, Apply(s, step))
  {
    match step {
      case Put(d, record, read, at) =>
        PutKeepsEntries(s.entries, s.stored, s.openings, s.now, d, Stored(s.stored, record, read, at));
      case Take(d, at, clock, delivered) =>
        if Visible(s, d, at) {
          TakeKeepsEntries(s.entries, s.stored, s.openings, s.now, d, at, clock);
          if delivered && Opens(s.entries[d].record, clock) {
            OpenKeepsOpenings(agree, s, d, at, clock);
          }
        }
    }
  }

  lemma {:induction false} RunKeepsInv(agree: bool, s: State, steps: seq<Step>, t: State)
    requires Inv(agree, s) && Runs(agree, s, steps, t)
    ensures Inv(agree, t)
    decreases |steps|
  {
    if steps != [] {
      StepKeepsInv(agree, s, steps[0]);
      RunKeepsInv(agree, Apply(s, steps[0]), steps[1..], t);
    }
  }

  /**
   In every run a stored ticket opens at most one session; the store gives it up within its lifetime and
   thirty seconds of taking it in, and the server lets it pass only before the access token expires.
   */
  lemma TicketsOpenOnce(agree: bool, t: State)
    requires Reachable(agree, t)
    ensures forall i, j :: 0 <= i < j < |t.openings| ==> t.openings[i].entry.serial != t.openings[j].entry.serial
    ensures forall i :: 0 <= i < |t.openings| ==> OpenedInTime(agree, t.openings[i])
  {
    var steps :| Runs(agree, EMPTY, steps, t);
    RunKeepsInv(agree, EMPTY, steps, t);
  }

  // ---------------------------------------------------------------------------------------
  // The announced expiry
  // ---------------------------------------------------------------------------------------

  /** Past openings stay, and new ones are not in the past. */
  lemma {:induction false} OpeningsOnlyAdd(agree: bool, s: State, steps: seq<Step>, t: State)
    requires Runs(agree, s, steps, t)
    ensures s.openings <= t.openings && forall i :: |s.openings| <= i < |t.openings| ==> t.openings[i].at >= s.now
    decreases |steps|
  {
    if steps != [] {
      OpeningsOnlyAdd(agree, Apply(s, steps[0]), steps[1..], t);
    }
  }

  /** Whatever session ticket `e` opened, it opened before its announced expiry. */
  ghost predicate OpenedAsAnnounced(t: State, e: Entry) {
    forall i :: 0 <= i < |t.openings| && t.openings[i].entry == e ==> t.openings[i].at < AnnouncedFor(e)
  }

  /**
   The store counts the lifetime from the put, not from the clock read before it. So from any state that
   holds ticket `e`, on one time line: it opens before its announced expiry in every continuation if and
   only if its own deadline comes by then, or the access token's expiry is what was announced, or either
   of the two has passed already.
   */
  lemma AnnouncedExpiryIsExact(s: State, d: Digest)
    requires Inv(true, s) && d in s.entries && s.entries[d].record.supported
    ensures var e := s.entries[d];
      (forall t :: Leads(true, s, t) ==> OpenedAsAnnounced(t, e)) <==>
      || Dies(e) <= AnnouncedFor(e) || AnnouncedFor(e) == e.record.accessExpires
      || Dies(e) <= s.now || e.record.accessExpires <= s.now
  {
    var e := s.entries[d];
    if AnnouncedFor(e) < Dies(e) && AnnouncedFor(e) != e.record.accessExpires && s.now < Dies(e) && s.now < e.record.accessExpires {
      var t := LateTake(s, d);
    } else {
      forall t | Leads(true, s, t) ensures OpenedAsAnnounced(t, e) {
        var steps :| Runs(true, s, steps, t);
        InTimeThroughRun(s, steps, t, e);
      }
    }
  }

  lemma InTimeThroughRun(s: State, steps: seq<Step>, t: State, e: Entry)
    requires Inv(true, s) && Runs(true, s, steps, t) && exists d :: d in s.entries && s.entries[d] == e
    requires || Dies(e) <= AnnouncedFor(e) || AnnouncedFor(e) == e.record.accessExpires
             || Dies(e) <= s.now || e.record.accessExpires <= s.now
    ensures OpenedAsAnnounced(t, e)
  {
    RunKeepsInv(true, s, steps, t);
    OpeningsOnlyAdd(true, s, steps, t);
    forall i | 0 <= i < |t.openings| && t.openings[i].entry == e ensures t.openings[i].at < AnnouncedFor(e) {
      assert OpenedInTime(true, t.openings[i]);
      if i < |s.openings| {
        assert s.openings[i] == t.openings[i];
      }
    }
  }

  /** Taken at the announced expiry, or now if that has passed. */
  lemma LateTake(s: State, d: Digest) returns (t: State)
    requires Inv(true, s) && d in s.entries && s.entries[d].record.supported
    requires var e := s.entries[d];
      && AnnouncedFor(e) < Dies(e) && AnnouncedFor(e) != e.record.accessExpires
      && s.now < Dies(e) && s.now < e.record.accessExpires
    ensures Leads(true, s, t) && !OpenedAsAnnounced(t, s.entries[d])
  {
    var e := s.entries[d];
    var at := if s.now < AnnouncedFor(e) then AnnouncedFor(e) else s.now;
    var step := Take(d, at, at, true);
    t := Apply(s, step);
    assert Runs(true, t, [], t);
    assert [step][1..] == [];
    assert Runs(true, s, [step], t);
    assert t.openings[|s.openings|] == Opening(e, at, at);
  }

  /** Issued at zero with an hour left, stored after five seconds, taken after thirty-one. */
  lemma LateOpening() returns (t: State)
    ensures Reachable(true, t) && |t.openings| == 1
    ensures AnnouncedFor(t.openings[0].entry) == 30_000 * MILLISECOND && t.openings[0].at == 31_000 * MILLISECOND
  {
    var second := 1000 * MILLISECOND;
    var put := Put(0, Record(0, 0, true, 3600 * second), 0, 5 * second);
    var take := Take(0, 31 * second, 31 * second, true);
    var s := Apply(EMPTY, put);
    t := Apply(s, take);
    assert Runs(true, t, [], t);
    assert [put, take][1..] == [take] && [take][1..] == [];
    assert Runs(true, s, [take], t);
    assert Runs(true, EMPTY, [put, take], t);
  }

  // ---------------------------------------------------------------------------------------
  // The service
  // ---------------------------------------------------------------------------------------

  datatype Reply = Replied | Lost(applied: bool)

  /** What one turn of the issuing loop meets: a credential or none, and how the put's reply fares. */
  datatype Attempt = Attempt(credential: Option<Digest>, at: Time, reply: Reply)

  /** The credential of this attempt is taken, and the store says so. */
  predicate Collides(s: State, a: Attempt) {
    a.credential.Some? && a.reply.Replied? && Visible(s, a.credential.value, a.at)
  }

  /** The credential of this attempt is free, and the store says so. */
  predicate Stores(s: State, a: Attempt) {
    a.credential.Some? && a.reply.Replied? && !Visible(s, a.credential.value, a.at)
  }

  /** Attempt `k` is the first that does not collide. */
  predicate Reaches(s: State, attempts: seq<Attempt>, k: nat) {
    k < |attempts| && k < MAX_CREDENTIAL_ATTEMPTS && forall i :: 0 <= i < k ==> Collides(s, attempts[i])
  }

  datatype Issued = Issued(digest: Digest, expires: Time)

  class TicketService {
    var s: State

    constructor ()
      ensures s == EMPTY
    {
      s := EMPTY;
    }

    /**
     `issue`. `attempts` is what the credential source and the store will do. A success stored exactly
     one ticket, under the returned credential, which was free; a refusal before the loop and an
     exhausted loop stored none.
     */
    method Issue(identity: Identity, supported: bool, now: Time, attempts: seq<Attempt>)
      returns (r: Result<Issued, Error>, ghost steps: seq<Step>)
      requires |attempts| >= MAX_CREDENTIAL_ATTEMPTS
      requires s.now <= attempts[0].at <= attempts[1].at <= attempts[2].at
      modifies this
      ensures Runs(now <= attempts[0].at, old(s), steps, s)
      ensures r.Ok? ==>
        && supported && identity.accessExpires.Some? && s.stored == old(s).stored + 1
        && r.value.expires == Announced(now, identity.accessExpires.value)
        && r.value.digest in s.entries && s.entries[r.value.digest].serial == old(s).stored
        && s.entries == old(s).entries[r.value.digest := s.entries[r.value.digest]]
        && !Visible(old(s), r.value.digest, s.entries[r.value.digest].put)
        && s.entries[r.value.digest].record == Record(identity.user, identity.session, true, identity.accessExpires.value)
        && s.entries[r.value.digest].read == now && AnnouncedFor(s.entries[r.value.digest]) == r.value.expires
        && PositiveTtl(now, r.value.expires) == Ok(s.entries[r.value.digest].ttl)
      ensures r.Ok? <==>
        && supported && identity.accessExpires.Some? && identity.accessExpires.value - now >= MILLISECOND
        && exists k :: 0 <= k < 3 && Reaches(old(s), attempts, k) && Stores(old(s), attempts[k])
      ensures forall k :: 0 <= k < 3 && r.Ok? && Reaches(old(s), attempts, k) && Stores(old(s), attempts[k]) ==>
        attempts[k].credential == Some(r.value.digest) && s.entries[r.value.digest].put == attempts[k].at
      ensures r == Err(ContractUpgradeRequired) <==> !supported
      ensures r == Err(AuthenticationRequired) <==>
        supported && (identity.accessExpires.None? || identity.accessExpires.value - now < MILLISECOND)
      ensures r.Err? ==> r.error in {ContractUpgradeRequired, AuthenticationRequired, Unavailable}
      ensures r.Err? && r.error != Unavailable ==> s == old(s)
      ensures r.Err? && s.entries != old(s).entries ==> exists k :: 0 <= k < 3 && attempts[k].reply == Lost(true)
    {
      steps := [];
      if !supported {
        return Err(ContractUpgradeRequired), steps;
      }
      if identity.accessExpires.None? {
        return Err(AuthenticationRequired), steps;
      }
      var access := identity.accessExpires.value;
      var expires := Announced(now, access);
      var ttl := PositiveTtl(now, expires);
      if ttl.Err? {
        return Err(ttl.error), steps;
      }
      var record := Record(identity.user, identity.session, supported, access);
      for k := 0 to MAX_CREDENTIAL_ATTEMPTS
        invariant s.entries == old(s).entries && s.stored == old(s).stored && s.openings == old(s).openings
        invariant s.now <= attempts[if k < 3 then k else 2].at
        invariant forall i :: 0 <= i < k ==> Collides(old(s), attempts[i])
        invariant Runs(now <= attempts[0].at, old(s), steps, s)
      {
        var attempt := attempts[k];
        if attempt.credential.None? {
          return Err(Unavailable), steps;
        }
        var d := attempt.credential.value;
        if attempt.reply == Lost(false) {
          return Err(Unavailable), steps;
        }
        var free := !Visible(s, d, attempt.at);
        var step := Put(d, record, now, attempt.at);
        Snoc(now <= attempts[0].at, old(s), steps, s, step);
        steps := steps + [step];
        s := Apply(s, step);
        if attempt.reply.Lost? {
          return Err(Unavailable), steps;
        }
        if free {
          return Ok(Issued(d, expires)), steps;
        }
      }
      r := Err(Unavailable);
    }

    /**
     `consume`. `digest` is the credential's digest if the text has one. A session opens exactly when a
     visible entry is taken whose access token is still live and whose contract is supported; the
     entry is gone either way.
     */
    method Consume(digest: Option<Digest>, at: Time, clock: Time, reply: Reply)
      returns (r: Result<Record, Error>, ghost steps: seq<Step>)
      requires s.now <= at
      modifies this
      ensures Runs(at <= clock, old(s), steps, s)
      ensures r.Ok? <==>
        && digest.Some? && reply.Replied? && Visible(old(s), digest.value, at)
        && Opens(old(s).entries[digest.value].record, clock)
      ensures r.Ok? ==>
        && r.value == old(s).entries[digest.value].record
        && s.openings == old(s).openings + [Opening(old(s).entries[digest.value], at, clock)]
      ensures r.Err? ==> s.openings == old(s).openings
      ensures digest.Some? && reply.Replied? ==> !Visible(s, digest.value, at)
      ensures r.Err? ==> r.error == (if digest.Some? && reply.Lost? then Unavailable else AuthenticationFailed)
    {
      steps := [];
      if digest.None? {
        return Err(AuthenticationFailed), steps;
      }
      var d := digest.value;
      if reply == Lost(false) {
        return Err(Unavailable), steps;
      }
      var found := Visible(s, d, at);
      var step := Take(d, at, clock, reply.Replied?);
      steps := [step];
      assert steps[1..] == [];
      var entries := s.entries;
      s := Apply(s, step);
      if reply.Lost? {
        return Err(Unavailable), steps;
      }
      if !found {
        return Err(AuthenticationFailed), steps;
      }
      if entries[d].record.accessExpires <= clock || !entries[d].record.supported {
        return Err(AuthenticationFailed), steps;
      }
      r := Ok(entries[d].record);
    }
  }

  lemma {:induction false} Snoc(agree: bool, s: State, steps: seq<Step>, t: State, step: Step)
    requires Runs(agree, s, steps, t) && Enabled(t, step) && (agree ==> Agrees(step))
    ensures Runs(agree, s, steps + [step], Apply(t, step))
    decreases |steps|
  {
    if steps == [] {
      assert (steps + [step])[1..] == [];
    } else {
      assert (steps + [step])[1..] == steps[1..] + [step];
      Snoc(agree, Apply(s, steps[0]), steps[1..], t, step);
    }
  }
}
