/** The single-flight schema view: at most one build per cache key, shared by everyone who asks meanwhile. */
module SingleFlight {
  import opened Options
  import Runs

  type Key = string
  type Schema = string

  datatype Response = Body(schema: Schema) | TimedOut | BuildFailed

  /** Where a request stands.  Building to Finishing hold the key's registration; Popped has given it
      up and has not set its event yet. */
  datatype Request =
    | Arrived
    | AtGuard
    | Building(event: nat)
    | Built(event: nat, schema: Schema)
    | Stored(event: nat, schema: Schema)
    | Finishing(event: nat, response: Response)
    | Popped(event: nat, response: Response)
    | Waiting(event: nat)
    | Woken
    | CacheMissed
    | Answered(response: Response)

  datatype Client = Client(key: Key, at: Request)

  datatype State = State(
    cache: map<Key, Schema>,
    inProgress: map<Key, nat>,
    flights: map<Key, Schema>,
    events: set<nat>,
    nextEvent: nat,
    clients: map<nat, Client>,
    /** Every schema some build, here or in another process, returned for a key. */
    results: set<(Key, Schema)>)

  /** The last three are taken by none of this process's requests: clearing the results, the shared cache
      dropping entries, and another process caching a schema it has built. */
  datatype Step =
    | Arrive(c: nat, key: Key)
    | FirstLook(c: nat, hit: bool)
    | Guard(c: nat, hit: bool)
    | BuildReturns(c: nat, schema: Schema)
    | StoreFlight(c: nat)
    | StoreCache(c: nat, ok: bool)
    | Raise(c: nat)
    | Pop(c: nat)
    | SetEvent(c: nat)
    | Wake(c: nat)
    | WaitTimesOut(c: nat)
    | LookAgain(c: nat, hit: bool)
    | LookAtFlights(c: nat)
    | ClearFlights
    | LoseCached(keys: set<Key>)
    | Publish(key: Key, schema: Schema)

  predicate Registered(r: Request) {
    r.Building? || r.Built? || r.Stored? || r.Finishing?
  }

  /** The request owns an event that it has yet to set. */
  predicate Owns(r: Request, event: nat) {
    (Registered(r) || r.Popped?) && r.event == event
  }

  /** An exception reaches the handler once, from the build or from rendering its response.  A build that
      outlasts the pool's wait raises one that the handler does not catch: `finally` runs as after any other,
      so everyone else sees the same, but the builder's own request ends in the exception and not in the
      answer that this model gives it. */
  predicate CanRaise(r: Request) {
    Registered(r) && !(r.Finishing? && r.response == BuildFailed)
  }

  predicate Is(s: State, c: nat, at: Request -> bool) {
    c in s.clients && at(s.clients[c].at)
  }

  predicate Enabled(s: State, step: Step) {
    match step
    case Arrive(c, _) => c !in s.clients
    case FirstLook(c, hit) => Is(s, c, (r: Request) => r.Arrived?) && (hit ==> s.clients[c].key in s.cache)
    case Guard(c, hit) => Is(s, c, (r: Request) => r.AtGuard?) && (hit ==> s.clients[c].key in s.cache)
    case BuildReturns(c, _) => Is(s, c, (r: Request) => r.Building?)
    case StoreFlight(c) => Is(s, c, (r: Request) => r.Built?)
    case StoreCache(c, _) => Is(s, c, (r: Request) => r.Stored?)
    case Raise(c) => Is(s, c, CanRaise)
    case Pop(c) => Is(s, c, (r: Request) => r.Finishing?)
    case SetEvent(c) => Is(s, c, (r: Request) => r.Popped?)
    case Wake(c) => Is(s, c, (r: Request) => r.Waiting?) && s.clients[c].at.event in s.events
    case WaitTimesOut(c) => Is(s, c, (r: Request) => r.Waiting?)
    case LookAgain(c, hit) => Is(s, c, (r: Request) => r.Woken?) && (hit ==> s.clients[c].key in s.cache)
    case LookAtFlights(c) => Is(s, c, (r: Request) => r.CacheMissed?)
    case ClearFlights => true
    case LoseCached(_) => true
    case Publish(_, _) => true
  }

  function Moved(s: State, c: nat, at: Request): State
    requires c in s.clients
  {
    s.(clients := s.clients[c := s.clients[c].(at := at)])
  }

  function Next(s: State, step: Step): State
    requires Enabled(s, step)
  {
    match step
    case Arrive(c, key) => s.(clients := s.clients[c := Client(key, Arrived)])
    case FirstLook(c, hit) =>
      Moved(s, c, if hit then Answered(Body(s.cache[s.clients[c].key])) else AtGuard)
    case Guard(c, hit) =>
      var key := s.clients[c].key;
      if hit then Moved(s, c, Answered(Body(s.cache[key])))
      else if key in s.inProgress then Moved(s, c, Waiting(s.inProgress[key]))
      else Moved(s, c, Building(s.nextEvent)).(inProgress := s.inProgress[key := s.nextEvent], nextEvent := s.nextEvent + 1)
    case BuildReturns(c, schema) =>
      Moved(s, c, Built(s.clients[c].at.event, schema)).(results := s.results + {(s.clients[c].key, schema)})
    case StoreFlight(c) =>
      var at := s.clients[c].at;
      Moved(s, c, Stored(at.event, at.schema)).(flights := s.flights[s.clients[c].key := at.schema])
    case StoreCache(c, ok) =>
      var at := s.clients[c].at;
      Moved(s, c, Finishing(at.event, Body(at.schema))).(cache := if ok then s.cache[s.clients[c].key := at.schema] else s.cache)
    case Raise(c) => Moved(s, c, Finishing(s.clients[c].at.event, BuildFailed))
    case Pop(c) =>
      var at := s.clients[c].at;
      Moved(s, c, Popped(at.event, at.response)).(inProgress := s.inProgress - {s.clients[c].key})
    case SetEvent(c) =>
      var at := s.clients[c].at;
      Moved(s, c, Answered(at.response)).(events := s.events + {at.event})
    case Wake(c) => Moved(s, c, Woken)
    case WaitTimesOut(c) => Moved(s, c, Answered(TimedOut))
    case LookAgain(c, hit) => Moved(s, c, if hit then Answered(Body(s.cache[s.clients[c].key])) else CacheMissed)
    case LookAtFlights(c) =>
      var key := s.clients[c].key;
      Moved(s, c, Answered(if key in s.flights then Body(s.flights[key]) else BuildFailed))
    case ClearFlights => s.(flights := map[])
    case LoseCached(keys) => s.(cache := s.cache - keys)
    case Publish(key, schema) => s.(cache := s.cache[key := schema], results := s.results + {(key, schema)})
  }

  const Start := State(map[], map[], map[], {}, 0, map[], {})

  function Try(s: State, step: Step): Option<State> {
    if Enabled(s, step) then Some(Next(s, step)) else None
  }

  ghost predicate Reaches(s: State, run: seq<Step>, s': State) {
    Runs.Reaches(Try, s, run, s')
  }

  /* The invariant */

  ghost predicate SaneResponse(s: State, key: Key, r: Response) {
    r.Body? ==> (key, r.schema) in s.results
  }

  /** Some request will set the event. */
  ghost predicate Promised(s: State, event: nat) {
    event in s.events || exists b :: b in s.clients && Owns(s.clients[b].at, event)
  }

  ghost predicate SaneClient(s: State, c: Client) {
    && (Registered(c.at) ==> c.key in s.inProgress && s.inProgress[c.key] == c.at.event)
    && (Registered(c.at) || c.at.Popped? ==> c.at.event < s.nextEvent && c.at.event !in s.events)
    && (c.at.Waiting? ==> Promised(s, c.at.event))
    && (c.at.Built? || c.at.Stored? ==> (c.key, c.at.schema) in s.results)
    && (c.at.Finishing? || c.at.Popped? || c.at.Answered? ==> SaneResponse(s, c.key, c.at.response))
  }

  ghost predicate OwnersUnique(s: State) {
    forall b, c, e :: b in s.clients && c in s.clients && Owns(s.clients[b].at, e) && Owns(s.clients[c].at, e) ==> b == c
  }

  /** Events are numbered as they are made, and only results of builds are ever stored. */
  ghost predicate SaneTables(s: State) {
    && (forall k :: k in s.inProgress ==> s.inProgress[k] < s.nextEvent)
    && (forall e :: e in s.events ==> e < s.nextEvent)
    && (forall k :: k in s.cache ==> (k, s.cache[k]) in s.results)
    && (forall k :: k in s.flights ==> (k, s.flights[k]) in s.results)
  }

  ghost predicate BuiltBySomeone(s: State, k: Key) {
    exists b :: b in s.clients && s.clients[b].key == k && Registered(s.clients[b].at)
  }

  ghost predicate Inv(s: State) {
    && SaneTables(s)
    && (forall k :: k in s.inProgress ==> BuiltBySomeone(s, k))
    && (forall c :: c in s.clients ==> SaneClient(s, s.clients[c]))
    && OwnersUnique(s)
  }

  /** At most one request per key is between registration and pop. */
  lemma OneBuilder(s: State, b: nat, c: nat)
    requires Inv(s) && b in s.clients && c in s.clients && s.clients[b].key == s.clients[c].key
    requires Registered(s.clients[b].at) && Registered(s.clients[c].at)
    ensures b == c
  {
    var e := s.inProgress[s.clients[b].key];
    assert SaneClient(s, s.clients[b]) && SaneClient(s, s.clients[c]);
    assert Owns(s.clients[b].at, e) && Owns(s.clients[c].at, e);
  }

  /* Every step keeps the invariant */

  function Mover(step: Step): Option<nat> {
    match step
    case ClearFlights => None
    case LoseCached(_) => None
    case Publish(_, _) => None
    case _ => Some(step.c)
  }

  /** What a step of request `c` leaves to the other requests. */
  ghost predicate Around(s: State, c: nat, s': State) {
    OnlyMoves(s, c, s') && KeepsRegistrations(s, c, s') && AccountsForEvents(s, c, s')
  }

  ghost predicate OnlyMoves(s: State, c: nat, s': State) {
    && s.results <= s'.results && s.events <= s'.events && s.nextEvent <= s'.nextEvent
    && (forall b :: b in s.clients && b != c ==> b in s'.clients && s'.clients[b] == s.clients[b])
    && (forall b :: b in s'.clients && b != c ==> b in s.clients)
  }

  ghost predicate KeepsRegistrations(s: State, c: nat, s': State) {
    forall k :: k in s.inProgress && !(Is(s, c, Registered) && s.clients[c].key == k)
      ==> k in s'.inProgress && s'.inProgress[k] == s.inProgress[k]
  }

  ghost predicate AccountsForEvents(s: State, c: nat, s': State) {
    && (forall e :: e in s'.events && e !in s.events ==> c in s.clients && Owns(s.clients[c].at, e))
    && (forall e :: c in s.clients && Owns(s.clients[c].at, e) ==>
          e in s'.events || (c in s'.clients && Owns(s'.clients[c].at, e)))
  }

  lemma StepStaysAround(s: State, step: Step, c: nat)
    requires Enabled(s, step) && Mover(step) == Some(c)
    ensures Around(s, c, Next(s, step))
  {
    StepOnlyMoves(s, step, c);
    StepKeepsRegistrations(s, step, c);
    StepAccountsForEvents(s, step, c);
  }

  lemma StepOnlyMoves(s: State, step: Step, c: nat)
    requires Enabled(s, step) && Mover(step) == Some(c)
    ensures OnlyMoves(s, c, Next(s, step))
  {
  }

  lemma StepKeepsRegistrations(s: State, step: Step, c: nat)
    requires Enabled(s, step) && Mover(step) == Some(c)
    ensures KeepsRegistrations(s, c, Next(s, step))
  {
  }

  lemma StepAccountsForEvents(s: State, step: Step, c: nat)
    requires Enabled(s, step) && Mover(step) == Some(c)
    ensures AccountsForEvents(s, c, Next(s, step))
  {
  }

  lemma PromiseKept(s: State, c: nat, s': State, e: nat)
    requires Around(s, c, s') && Promised(s, e)
    ensures Promised(s', e)
  {
    if e !in s'.events {
      var b :| b in s.clients && Owns(s.clients[b].at, e);
      assert b in s'.clients && Owns(s'.clients[b].at, e);
    }
  }

  lemma OthersStaySane(s: State, c: nat, s': State, b: nat)
    requires Inv(s) && Around(s, c, s') && b in s.clients && b != c
    ensures SaneClient(s', s'.clients[b])
  {
    var other := s.clients[b];
    assert SaneClient(s, other);
    if other.at.Waiting? {
      PromiseKept(s, c, s', other.at.event);
    }
    if Registered(other.at) && c in s.clients && Registered(s.clients[c].at) && s.clients[c].key == other.key {
      OneBuilder(s, b, c);
    }
    if Registered(other.at) || other.at.Popped? {
      assert Owns(other.at, other.at.event);
      assert other.at.event !in s'.events;
    }
  }

  lemma MoverStaysSane(s: State, step: Step, c: nat)
    requires Inv(s) && Enabled(s, step) && Mover(step) == Some(c)
    ensures SaneClient(Next(s, step), Next(s, step).clients[c])
  {
    var s' := Next(s, step);
    if c in s.clients {
      assert SaneClient(s, s.clients[c]);
    }
    if step.Guard? && s'.clients[c].at.Waiting? {
      var key := s.clients[c].key;
      var b :| b in s.clients && s.clients[b].key == key && Registered(s.clients[b].at);
      assert SaneClient(s, s.clients[b]);
      assert Owns(s'.clients[b].at, s.inProgress[key]);
    }
  }

  lemma StaysRegistered(s: State, step: Step, c: nat)
    requires Enabled(s, step) && Mover(step) == Some(c) && Is(s, c, Registered)
    ensures s.clients[c].key !in Next(s, step).inProgress || Is(Next(s, step), c, Registered)
    ensures Next(s, step).clients[c].key == s.clients[c].key
  {
  }

  lemma RegistrationsKept(s: State, step: Step, c: nat, k: Key)
    requires Inv(s) && Enabled(s, step) && Mover(step) == Some(c) && k in Next(s, step).inProgress
    ensures BuiltBySomeone(Next(s, step), k)
  {
    var s' := Next(s, step);
    if k in s.inProgress {
      var b :| b in s.clients && s.clients[b].key == k && Registered(s.clients[b].at);
      StepOnlyMoves(s, step, c);
      if b == c {
        StaysRegistered(s, step, c);
      }
      assert b in s'.clients && s'.clients[b].key == k && Registered(s'.clients[b].at);
    } else {
      assert s'.clients[c].key == k && Registered(s'.clients[c].at);
    }
  }

  /** The only event a step makes somebody own anew is the next one. */
  lemma OwnedBefore(s: State, step: Step, c: nat, e: nat)
    requires Enabled(s, step) && Mover(step) == Some(c)
    ensures Owns(Next(s, step).clients[c].at, e) ==> (c in s.clients && Owns(s.clients[c].at, e)) || e == s.nextEvent
  {
  }

  lemma OwnersStayUnique(s: State, step: Step, c: nat)
    requires Inv(s) && Enabled(s, step) && Mover(step) == Some(c)
    ensures OwnersUnique(Next(s, step))
  {
    var s' := Next(s, step);
    StepOnlyMoves(s, step, c);
    forall b, e | b in s'.clients && b != c && Owns(s'.clients[b].at, e)
      ensures !Owns(s'.clients[c].at, e)
    {
      assert SaneClient(s, s.clients[b]);
      OwnedBefore(s, step, c, e);
    }
  }

  lemma TablesStaySane(s: State, step: Step)
    requires Inv(s) && Enabled(s, step)
    ensures SaneTables(Next(s, step))
  {
    forall c | Mover(step) == Some(c) && c in s.clients ensures SaneClient(s, s.clients[c]) {
    }
  }

  lemma StorageStepKeepsInv(s: State, step: Step)
    requires Inv(s) && Enabled(s, step) && Mover(step) == None
    ensures Inv(Next(s, step))
  {
    var s' := Next(s, step);
    TablesStaySane(s, step);
    forall c | c in s'.clients ensures SaneClient(s', s'.clients[c]) {
      assert SaneClient(s, s.clients[c]);
      if s.clients[c].at.Waiting? {
        assert Promised(s, s.clients[c].at.event) ==> Promised(s', s.clients[c].at.event);
      }
    }
    forall k | k in s'.inProgress ensures BuiltBySomeone(s', k) {
      assert BuiltBySomeone(s, k);
    }
  }

  lemma StepKeepsInv(s: State, step: Step)
    requires Inv(s) && Enabled(s, step)
    ensures Inv(Next(s, step))
  {
    var s' := Next(s, step);
    TablesStaySane(s, step);
    match Mover(step) {
      case None =>
        StorageStepKeepsInv(s, step);
      case Some(c) =>
        StepStaysAround(s, step, c);
        MoverStaysSane(s, step, c);
        OwnersStayUnique(s, step, c);
        forall b | b in s'.clients ensures SaneClient(s', s'.clients[b]) {
          if b != c { OthersStaySane(s, c, s', b); }
        }
        forall k | k in s'.inProgress ensures BuiltBySomeone(s', k) {
          RegistrationsKept(s, step, c, k);
        }
    }
  }

  lemma RunKeepsInv(s: State, run: seq<Step>, s': State)
    requires Inv(s) && Reaches(s, run, s')
    ensures Inv(s')
  {
    forall x, step | Inv(x) && Try(x, step).Some? ensures Inv(Try(x, step).value) {
      StepKeepsInv(x, step);
    }
    Runs.RunKeeps(Try, Inv, s, run, s');
  }

  /* What every run from an empty process promises */

  lemma OneBuilderPerKey(run: seq<Step>, s: State, b: nat, c: nat)
    requires Reaches(Start, run, s) && b in s.clients && c in s.clients && s.clients[b].key == s.clients[c].key
    requires Registered(s.clients[b].at) && Registered(s.clients[c].at)
    ensures b == c
  {
    RunKeepsInv(Start, run, s);
    OneBuilder(s, b, c);
  }

  lemma BodiesAreBuilt(run: seq<Step>, s: State, c: nat)
    requires Reaches(Start, run, s) && c in s.clients && s.clients[c].at.Answered? && s.clients[c].at.response.Body?
    ensures (s.clients[c].key, s.clients[c].at.response.schema) in s.results
  {
    RunKeepsInv(Start, run, s);
    assert SaneClient(s, s.clients[c]);
  }

  lemma WaitersArePromised(run: seq<Step>, s: State, c: nat)
    requires Reaches(Start, run, s) && c in s.clients && s.clients[c].at.Waiting?
    ensures Promised(s, s.clients[c].at.event)
  {
    RunKeepsInv(Start, run, s);
    assert SaneClient(s, s.clients[c]);
  }

  /* An owned event is set, whether the build returns or raises */

  function StepsLeft(r: Request): nat {
    match r
    case Building(_) => 6
    case Built(_, _) => 5
    case Stored(_, _) => 4
    case Finishing(_, response) => if response == BuildFailed then 2 else 3
    case Popped(_, _) => 1
    case _ => 0
  }

  function StepsOf(run: seq<Step>, b: nat): nat {
    if run == [] then 0 else (if Mover(run[0]) == Some(b) then 1 else 0) + StepsOf(run[1..], b)
  }

  /** No lock and no other request can hold an owner back. */
  lemma OwnerCanAlwaysMove(s: State, b: nat, e: nat)
    requires Inv(s) && b in s.clients && Owns(s.clients[b].at, e)
    ensures exists step :: Enabled(s, step) && Mover(step) == Some(b)
  {
    var step := match s.clients[b].at
      case Building(_) => BuildReturns(b, "")
      case Built(_, _) => StoreFlight(b)
      case Stored(_, _) => StoreCache(b, false)
      case Finishing(_, _) => Pop(b)
      case _ => SetEvent(b);
    assert Enabled(s, step) && Mover(step) == Some(b);
  }

  lemma OwnerAdvances(s: State, step: Step, b: nat, e: nat)
    requires Enabled(s, step) && b in s.clients && Owns(s.clients[b].at, e)
    ensures b in Next(s, step).clients && s.events <= Next(s, step).events
    ensures var at := Next(s, step).clients[b].at;
      e in Next(s, step).events ||
      (Owns(at, e) && StepsLeft(at) + (if Mover(step) == Some(b) then 1 else 0) <= StepsLeft(s.clients[b].at))
  {
  }

  lemma {:induction false} OwnedEventIsSet(s: State, run: seq<Step>, s': State, b: nat, e: nat)
    requires Reaches(s, run, s') && b in s.clients && (e in s.events || Owns(s.clients[b].at, e))
    requires e !in s.events ==> StepsOf(run, b) >= StepsLeft(s.clients[b].at)
    ensures e in s'.events
    decreases |run|
  {
    if run != [] {
      var next := Next(s, run[0]);
      if e !in s.events {
        OwnerAdvances(s, run[0], b, e);
      }
      OwnedEventIsSet(next, run[1..], s', b, e);
    }
  }

  /* Which answer says what */

  /** Some request's look at the stored results, as a step of a run from the start, found none. */
  ghost predicate FoundNothing(run: seq<Step>, c: nat) {
    exists i :: 0 <= i < |run| && FoundNothingAt(run, i, c)
  }

  ghost predicate FoundNothingAt(run: seq<Step>, i: nat, c: nat)
    requires i < |run|
  {
    run[i] == LookAtFlights(c) &&
    exists s :: Reaches(Start, run[..i], s) && c in s.clients && s.clients[c].key !in s.flights
  }

  /** A request has been told of the timeout exactly if its wait timed out, and is to be told, or has been,
      of the failure exactly if its build raised or it woke and found a result neither cached nor stored;
      one that hits the cache is answered from it. */
  ghost predicate ToldWhy(run: seq<Step>, s: State, c: nat) {
    && (c in s.clients && s.clients[c].at == Answered(TimedOut) <==> WaitTimesOut(c) in run)
    && (c in s.clients && Responds(s.clients[c].at, TimedOut) ==> s.clients[c].at.Answered?)
    && (c in s.clients && Responds(s.clients[c].at, BuildFailed) <==> Raise(c) in run || FoundNothing(run, c))
    && ((c in s.clients && s.clients[c].at.CacheMissed?) || FoundNothing(run, c) ==> LookAgain(c, false) in run)
    && (FirstLook(c, true) in run || Guard(c, true) in run || LookAgain(c, true) in run ==> AnsweredFromCache(s, c))
  }

  predicate AnsweredFromCache(s: State, c: nat) {
    c in s.clients && s.clients[c].at.Answered? && s.clients[c].at.response.Body?
  }

  predicate Responds(r: Request, response: Response) {
    (r.Finishing? || r.Popped? || r.Answered?) && r.response == response
  }

  lemma FoundNothingAfter(front: seq<Step>, s: State, last: Step, c: nat)
    requires Reaches(Start, front, s)
    ensures FoundNothing(front + [last], c) <==>
      FoundNothing(front, c) || (last == LookAtFlights(c) && c in s.clients && s.clients[c].key !in s.flights)
  {
    var run, n := front + [last], |front|;
    assert run[..n] == front;
    assert forall i :: 0 <= i < n ==> run[..i] == front[..i] && run[i] == front[i];
    if FoundNothingAt(run, n, c) {
      var x :| Reaches(Start, run[..n], x) && c in x.clients && x.clients[c].key !in x.flights;
      Runs.OneEnd(Try, Start, front, s, x);
    }
    assert forall i :: 0 <= i < n ==> (FoundNothingAt(run, i, c) <==> FoundNothingAt(front, i, c));
  }

  lemma StepTellsTimeout(s: State, step: Step, c: nat)
    requires Enabled(s, step) && (c in s.clients && Responds(s.clients[c].at, TimedOut) ==> s.clients[c].at.Answered?)
    ensures var s' := Next(s, step);
      && (c in s'.clients && Responds(s'.clients[c].at, TimedOut) ==> s'.clients[c].at.Answered?)
      && (c in s'.clients && s'.clients[c].at == Answered(TimedOut) <==>
            (c in s.clients && s.clients[c].at == Answered(TimedOut)) || step == WaitTimesOut(c))
  {
  }

  lemma StepTellsFailure(s: State, step: Step, c: nat)
    requires Enabled(s, step)
    ensures var s' := Next(s, step);
      c in s'.clients && Responds(s'.clients[c].at, BuildFailed) <==>
        (c in s.clients && Responds(s.clients[c].at, BuildFailed)) || step == Raise(c) ||
        (step == LookAtFlights(c) && s.clients[c].key !in s.flights)
  {
  }

  lemma StepMisses(s: State, step: Step, c: nat)
    requires Enabled(s, step)
    ensures c in Next(s, step).clients && Next(s, step).clients[c].at.CacheMissed? ==>
      (c in s.clients && s.clients[c].at.CacheMissed?) || step == LookAgain(c, false)
    ensures step == LookAtFlights(c) ==> s.clients[c].at.CacheMissed?
  {
  }

  lemma StepHits(s: State, step: Step, c: nat)
    requires Enabled(s, step)
    requires AnsweredFromCache(s, c) || step == FirstLook(c, true) || step == Guard(c, true) || step == LookAgain(c, true)
    ensures AnsweredFromCache(Next(s, step), c)
  {
  }

  /** In every run: 503 means that the wait timed out, and 500 that the request's own build raised or that,
      after its wait, no result was cached or stored. */
  lemma {:induction false} AnswersTellWhy(run: seq<Step>, s: State, c: nat)
    requires Reaches(Start, run, s)
    ensures ToldWhy(run, s, c)
    decreases |run|
  {
    if run != [] {
      var front, last := run[..|run| - 1], run[|run| - 1];
      var s1 := Runs.WithoutLast(Try, Start, run, s);
      AnswersTellWhy(front, s1, c);
      assert run == front + [last];
      FoundNothingAfter(front, s1, last, c);
      StepTellsTimeout(s1, last, c);
      StepTellsFailure(s1, last, c);
      StepMisses(s1, last, c);
      if AnsweredFromCache(s1, c) || last == FirstLook(c, true) || last == Guard(c, true) || last == LookAgain(c, true) {
        StepHits(s1, last, c);
      }
    }
  }

  /** Step `j` of a run from the start is the owner of the event setting it. */
  ghost predicate SetsEvent(run: seq<Step>, j: nat, e: nat) {
    j < |run| && run[j].SetEvent? &&
    exists s :: Reaches(Start, run[..j], s) && run[j].c in s.clients && Owns(s.clients[run[j].c].at, e)
  }

  lemma {:induction false} EventsAreSet(run: seq<Step>, s: State, e: nat) returns (j: nat)
    requires Reaches(Start, run, s) && e in s.events
    ensures SetsEvent(run, j, e)
    decreases |run|
  {
    var front, last := run[..|run| - 1], run[|run| - 1];
    var s1 := Runs.WithoutLast(Try, Start, run, s);
    if e in s1.events {
      j := EventsAreSet(front, s1, e);
      assert run[..j] == front[..j] && run[j] == front[j];
    } else {
      j := |run| - 1;
      assert run[..j] == front && Owns(s1.clients[last.c].at, e);
    }
  }

  /** In every run a waiter wakes only after the request that owns its event has set it. */
  lemma WakesAfterOwner(run: seq<Step>, s: State, c: nat)
    requires Reaches(Start, run, s) && Enabled(s, Wake(c))
    ensures exists j: nat :: SetsEvent(run, j, s.clients[c].at.event)
  {
    var j := EventsAreSet(run, s, s.clients[c].at.event);
  }

  /* What a waiter reads after the event */

  predicate Clears(run: seq<Step>) {
    exists i :: 0 <= i < |run| && run[i].ClearFlights?
  }

  lemma {:induction false} FlightsOutliveTheirBuild(s: State, run: seq<Step>, s': State, k: Key)
    requires Reaches(s, run, s') && k in s.flights && !Clears(run)
    ensures k in s'.flights
    decreases |run|
  {
    if run != [] {
      assert !run[0].ClearFlights?;
      forall i | 0 <= i < |run[1..]| ensures !run[1..][i].ClearFlights? {
        assert run[1..][i] == run[i + 1];
      }
      FlightsOutliveTheirBuild(Next(s, run[0]), run[1..], s', k);
    }
  }

  /** A waiter is told that generation failed only when no build for its key has stored a result since
      the process started or the results were last cleared. */
  lemma FailureMeansNothingStored(s: State, run: seq<Step>, s': State, step: Step, k: Key)
    requires Reaches(s, run, s') && k in s.flights && !Clears(run)
    requires step.LookAtFlights? && Enabled(s', step) && s'.clients[step.c].key == k
    ensures k in s'.flights && AnsweredWith(Next(s', step), step.c, Body(s'.flights[k]))
  {
    FlightsOutliveTheirBuild(s, run, s', k);
  }

  /* Whether a request whose build fails can still be answered with a body */

  /** The step is a build of the key that returns, in this process or another. */
  predicate Builds(s: State, step: Step, k: Key) {
    (step.BuildReturns? && step.c in s.clients && s.clients[step.c].key == k) || (step.Publish? && step.key == k)
  }

  /** A step, unless it is a build of the key that returns. */
  function TryUnbuilt(k: Key): (State, Step) -> Option<State> {
    (s: State, step: Step) => if Enabled(s, step) && !Builds(s, step, k) then Some(Next(s, step)) else None
  }

  /** A run in which no build of the key returns. */
  ghost predicate Unbuilt(s: State, run: seq<Step>, s': State, k: Key) {
    Runs.Reaches(TryUnbuilt(k), s, run, s')
  }

  predicate HasBody(r: Request) {
    (r.Finishing? || r.Popped? || r.Answered?) && r.response.Body?
  }

  /** Nothing is stored for the key, or about to be; the requests since `s0` have no body. */
  ghost predicate Barren(s0: State, s: State, k: Key) {
    && k !in s.cache && k !in s.flights && s0.clients.Keys <= s.clients.Keys
    && forall c :: c in s.clients && s.clients[c].key == k ==>
         !s.clients[c].at.Built? && !s.clients[c].at.Stored? && (c !in s0.clients ==> !HasBody(s.clients[c].at))
  }

  lemma BarrenInitially(s: State, k: Key)
    requires Inv(s) && k !in s.cache && k !in s.flights && k !in s.inProgress
    ensures Barren(s, s, k)
  {
    forall c | c in s.clients ensures SaneClient(s, s.clients[c]) {
    }
  }

  lemma StepStaysBarren(s0: State, s: State, step: Step, k: Key)
    requires Barren(s0, s, k) && Enabled(s, step) && !Builds(s, step, k)
    ensures Barren(s0, Next(s, step), k)
  {
    var s' := Next(s, step);
    match Mover(step) {
      case None =>
      case Some(c) =>
        StepOnlyMoves(s, step, c);
        MoverStaysBarren(s0, s, step, c, k);
    }
  }

  lemma MoverStaysBarren(s0: State, s: State, step: Step, c: nat, k: Key)
    requires Barren(s0, s, k) && Enabled(s, step) && !Builds(s, step, k) && Mover(step) == Some(c)
    ensures var s' := Next(s, step);
      && k !in s'.cache && k !in s'.flights && c in s'.clients
      && (s'.clients[c].key == k ==>
            !s'.clients[c].at.Built? && !s'.clients[c].at.Stored? && (c !in s0.clients ==> !HasBody(s'.clients[c].at)))
  {
    StorageStaysBarren(s, step, c, k);
    if c in s.clients && s.clients[c].key == k {
      RequestStaysBarren(s, step, c, k);
    }
  }

  lemma StorageStaysBarren(s: State, step: Step, c: nat, k: Key)
    requires Enabled(s, step) && Mover(step) == Some(c) && k !in s.cache && k !in s.flights
    requires c in s.clients && s.clients[c].key == k ==> !s.clients[c].at.Built? && !s.clients[c].at.Stored?
    ensures k !in Next(s, step).cache && k !in Next(s, step).flights
  {
  }

  lemma RequestStaysBarren(s: State, step: Step, c: nat, k: Key)
    requires Enabled(s, step) && Mover(step) == Some(c) && k !in s.cache && k !in s.flights && !Builds(s, step, k)
    requires c in s.clients && s.clients[c].key == k && !s.clients[c].at.Built? && !s.clients[c].at.Stored?
    ensures var at := Next(s, step).clients[c].at;
      !at.Built? && !at.Stored? && (!HasBody(s.clients[c].at) ==> !HasBody(at))
  {
  }

  lemma RunStaysBarren(s: State, run: seq<Step>, s': State, k: Key)
    requires Inv(s) && k !in s.cache && k !in s.flights && k !in s.inProgress && Unbuilt(s, run, s', k)
    ensures Barren(s, s', k)
  {
    var barren := (x: State) => Barren(s, x, k);
    BarrenInitially(s, k);
    forall x, step | barren(x) && TryUnbuilt(k)(x, step).Some? ensures barren(TryUnbuilt(k)(x, step).value) {
      StepStaysBarren(s, x, step, k);
    }
    Runs.RunKeeps(TryUnbuilt(k), barren, s, run, s');
  }

  /** Without a stored result, a request that arrives while nothing is cached or being built is told of
      the failure or times out, unless a build of its key returns. */
  lemma FailureIsTold(before: seq<Step>, s: State, run: seq<Step>, s': State, k: Key, c: nat)
    requires Reaches(Start, before, s) && k !in s.cache && k !in s.inProgress && k !in s.flights
    requires Unbuilt(s, run, s', k)
    requires c !in s.clients && c in s'.clients && s'.clients[c].key == k && s'.clients[c].at.Answered?
    ensures s'.clients[c].at.response == BuildFailed || s'.clients[c].at.response == TimedOut
  {
    RunKeepsInv(Start, before, s);
    RunStaysBarren(s, run, s', k);
  }

  /** Some request for the key that arrives after `s` is answered with a body although no build of the
      key returns. */
  ghost predicate ServedUnbuilt(s: State, k: Key) {
    exists run, s', c :: Unbuilt(s, run, s', k) && c !in s.clients && AnswersBody(s', c, k)
  }

  predicate AnswersBody(s: State, c: nat, k: Key) {
    c in s.clients && s.clients[c].key == k && s.clients[c].at.Answered? && s.clients[c].at.response.Body?
  }

  predicate AnsweredWith(s: State, c: nat, response: Response) {
    c in s.clients && s.clients[c].at == Answered(response)
  }

  /** A request that finds nothing cached and nobody building. */
  lemma Registers(s: State, run: seq<Step>, s1: State, k: Key, b: nat) returns (longer: seq<Step>, s2: State)
    requires Unbuilt(s, run, s1, k) && k !in s1.cache && k !in s1.inProgress && b !in s1.clients
    ensures Unbuilt(s, longer, s2, k) && s2.flights == s1.flights && s2.cache == s1.cache
    ensures s2.clients == s1.clients[b := Client(k, Building(s1.nextEvent))] && s2.inProgress == s1.inProgress[k := s1.nextEvent]
  {
    longer, s2 := Runs.Then(TryUnbuilt(k), s, run, s1, Arrive(b, k));
    longer, s2 := Runs.Then(TryUnbuilt(k), s, longer, s2, FirstLook(b, false));
    longer, s2 := Runs.Then(TryUnbuilt(k), s, longer, s2, Guard(b, false));
  }

  /** A request that finds nothing cached and somebody building. */
  lemma Waits(s: State, run: seq<Step>, s1: State, k: Key, c: nat) returns (longer: seq<Step>, s2: State)
    requires Unbuilt(s, run, s1, k) && k !in s1.cache && k in s1.inProgress && c !in s1.clients
    ensures Unbuilt(s, longer, s2, k) && s2.flights == s1.flights && s2.cache == s1.cache
    ensures s2.clients == s1.clients[c := Client(k, Waiting(s1.inProgress[k]))]
  {
    longer, s2 := Runs.Then(TryUnbuilt(k), s, run, s1, Arrive(c, k));
    longer, s2 := Runs.Then(TryUnbuilt(k), s, longer, s2, FirstLook(c, false));
    longer, s2 := Runs.Then(TryUnbuilt(k), s, longer, s2, Guard(c, false));
  }

  /** The builder raises. */
  lemma Fails(s: State, run: seq<Step>, s1: State, k: Key, b: nat, e: nat) returns (longer: seq<Step>, s2: State)
    requires Unbuilt(s, run, s1, k) && b in s1.clients && s1.clients[b] == Client(k, Building(e))
    ensures Unbuilt(s, longer, s2, k) && s2.flights == s1.flights && s2.cache == s1.cache
    ensures s2.clients == s1.clients[b := Client(k, Answered(BuildFailed))] && e in s2.events
  {
    longer, s2 := Runs.Then(TryUnbuilt(k), s, run, s1, Raise(b));
    longer, s2 := Runs.Then(TryUnbuilt(k), s, longer, s2, Pop(b));
    longer, s2 := Runs.Then(TryUnbuilt(k), s, longer, s2, SetEvent(b));
  }

  lemma WakesToMiss(s: State, run: seq<Step>, s1: State, k: Key, c: nat, e: nat) returns (longer: seq<Step>, s2: State)
    requires Unbuilt(s, run, s1, k) && c in s1.clients && s1.clients[c] == Client(k, Waiting(e)) && e in s1.events
    ensures Unbuilt(s, longer, s2, k) && s2 == s1.(clients := s1.clients[c := Client(k, CacheMissed)])
  {
    longer, s2 := Runs.Then(TryUnbuilt(k), s, run, s1, Wake(c));
    longer, s2 := Runs.Then(TryUnbuilt(k), s, longer, s2, LookAgain(c, false));
  }

  /** The waiter wakes and looks at the cache and then at the stored results. */
  lemma ReadsFlights(s: State, run: seq<Step>, s1: State, k: Key, c: nat, e: nat) returns (longer: seq<Step>, s2: State)
    requires Unbuilt(s, run, s1, k) && c in s1.clients && s1.clients[c] == Client(k, Waiting(e))
    requires e in s1.events && k in s1.flights
    ensures Unbuilt(s, longer, s2, k)
    ensures s2.clients == s1.clients[c := Client(k, Answered(Body(s1.flights[k])))]
  {
    longer, s2 := WakesToMiss(s, run, s1, k, c, e);
    longer, s2 := Runs.Then(TryUnbuilt(k), s, longer, s2, LookAtFlights(c));
  }

  /** With a stored result that the cache has dropped, a build can fail and the request that waited for
      it still answers with the earlier result. */
  lemma WaiterOutlivesFailedBuild(s: State, k: Key, b: nat, c: nat)
    requires k in s.flights && k !in s.cache && k !in s.inProgress
    requires b != c && b !in s.clients && c !in s.clients
    ensures exists run, s' ::
      Unbuilt(s, run, s', k) && AnsweredWith(s', b, BuildFailed) && AnsweredWith(s', c, Body(s.flights[k]))
    ensures ServedUnbuilt(s, k)
  {
    var run, s1 := Registers(s, [], s, k, b);
    run, s1 := Waits(s, run, s1, k, c);
    run, s1 := Fails(s, run, s1, k, b, s.nextEvent);
    run, s1 := ReadsFlights(s, run, s1, k, c, s.nextEvent);
    assert AnsweredWith(s1, b, BuildFailed) && AnsweredWith(s1, c, Body(s.flights[k]));
    assert AnswersBody(s1, c, k);
  }

  ghost predicate AllBelow(ids: set<nat>, n: nat) {
    forall i: nat :: i in ids ==> i < n
  }

  lemma {:induction false} SomeAbove(ids: set<nat>)
    ensures exists n: nat :: AllBelow(ids, n)
    decreases |ids|
  {
    if ids == {} {
      assert AllBelow(ids, 0);
    } else {
      var one: nat :| one in ids;
      SomeAbove(ids - {one});
      var rest: nat :| AllBelow(ids - {one}, rest);
      var n := if rest <= one then one + 1 else rest;
      forall i: nat | i in ids ensures i < n {
        assert i == one || i in ids - {one};
      }
      assert AllBelow(ids, n);
    }
  }

  /** In every state a run reaches in which nothing is cached or being built for the key: a request that
      comes then can be answered with a body without any build of the key exactly when a result of an
      earlier build is still stored. */
  lemma ServedUnbuiltIffStored(before: seq<Step>, s: State, k: Key)
    requires Reaches(Start, before, s) && k !in s.cache && k !in s.inProgress
    ensures ServedUnbuilt(s, k) <==> k in s.flights
  {
    if k in s.flights {
      SomeAbove(s.clients.Keys);
      var n: nat :| AllBelow(s.clients.Keys, n);
      WaiterOutlivesFailedBuild(s, k, n, n + 1);
    } else {
      forall run, s', c | Unbuilt(s, run, s', k) && c !in s.clients && AnswersBody(s', c, k)
        ensures false
      {
        FailureIsTold(before, s, run, s', k, c);
      }
    }
  }

  /** Such states with a stored result are reached: one build, and then the cache drops its entry. */
  lemma DroppedResultIsReached(k: Key, schema: Schema)
    ensures exists run, s ::
      Reaches(Start, run, s) && k !in s.cache && k !in s.inProgress && k in s.flights && s.flights[k] == schema
  {
    var run, s := FirstStored(k, schema);
    run, s := Runs.Then(Try, Start, run, s, Pop(0));
    run, s := Runs.Then(Try, Start, run, s, LoseCached({k}));
    assert Reaches(Start, run, s);
  }

  lemma FirstStored(k: Key, schema: Schema) returns (run: seq<Step>, s: State)
    ensures Reaches(Start, run, s)
    ensures s == State(map[k := schema], map[k := 0], map[k := schema], {}, 1,
                       map[0 := Client(k, Finishing(0, Body(schema)))], {(k, schema)})
  {
    run, s := FirstBuild(k, schema);
    run, s := Runs.Then(Try, Start, run, s, StoreFlight(0));
    run, s := Runs.Then(Try, Start, run, s, StoreCache(0, true));
  }

  lemma FirstBuild(k: Key, schema: Schema) returns (run: seq<Step>, s: State)
    ensures Reaches(Start, run, s)
    ensures s == State(map[], map[k := 0], map[], {}, 1, map[0 := Client(k, Built(0, schema))], {(k, schema)})
  {
    run, s := FirstRegistered(k);
    run, s := Runs.Then(Try, Start, run, s, BuildReturns(0, schema));
  }

  lemma FirstRegistered(k: Key) returns (run: seq<Step>, s: State)
    ensures Reaches(Start, run, s)
    ensures s == State(map[], map[k := 0], map[], {}, 1, map[0 := Client(k, Building(0))], {})
  {
    run, s := Runs.Then(Try, Start, [], Start, Arrive(0, k));
    run, s := Runs.Then(Try, Start, run, s, FirstLook(0, false));
    run, s := Runs.Then(Try, Start, run, s, Guard(0, false));
  }
}
