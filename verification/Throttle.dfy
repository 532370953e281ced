/** The sliding-window ceiling on failed sign-ins. */
module Throttle {
  import opened Wrappers

  /** An address in its canonical form, and a client address. */
  type Email = nat
  type Ip = nat

  datatype Attempt = Attempt(email: Email, ip: Option<Ip>, createdAt: int)

  /** A sign-up, counted against its own ceiling and swept with the rest. */
  datatype SignUp = SignUp(ip: Option<Ip>, createdAt: int)

  /** The settings: zero switches a ceiling off. */
  datatype Limits = Limits(perEmail: int, perIp: int, window: int, signUpWindow: int)

  // ---- Tables of rows -------------------------------------------------------

  function Filter<T>(xs: seq<T>, p: T -> bool): (ys: seq<T>)
    ensures |ys| <= |xs|
  {
    if xs == [] then []
    else if p(xs[0]) then [xs[0]] + Filter(xs[1..], p)
    else Filter(xs[1..], p)
  }

  lemma FilterCons<T>(x: T, xs: seq<T>, p: T -> bool)
    ensures Filter([x] + xs, p) == if p(x) then [x] + Filter(xs, p) else Filter(xs, p)
  {
    assert ([x] + xs)[1..] == xs;
  }

  lemma {:induction false} FilterOne<T>(a: seq<T>, x: T, p: T -> bool)
    ensures Filter(a + [x], p) == if p(x) then Filter(a, p) + [x] else Filter(a, p)
    decreases a
  {
    if a == [] {
      assert a + [x] == [x] + [];
      FilterCons(x, [], p);
    } else {
      assert a + [x] == [a[0]] + (a[1..] + [x]);
      FilterCons(a[0], a[1..] + [x], p);
      FilterOne(a[1..], x, p);
    }
  }

  /** Filtering twice, when the second filter is the narrower. */
  lemma {:induction false} FilterNarrower<T>(xs: seq<T>, p: T -> bool, q: T -> bool)
    requires forall x <- xs :: q(x) ==> p(x)
    ensures Filter(Filter(xs, p), q) == Filter(xs, q)
    decreases xs
  {
    if xs != [] {
      assert forall x <- xs[1..] :: x in xs;
      FilterNarrower(xs[1..], p, q);
      FilterCons(xs[0], Filter(xs[1..], p), q);
    }
  }

  lemma {:induction false} FilterCommutes<T>(xs: seq<T>, p: T -> bool, q: T -> bool)
    ensures Filter(Filter(xs, p), q) == Filter(Filter(xs, q), p)
    decreases xs
  {
    if xs != [] {
      FilterCommutes(xs[1..], p, q);
      FilterCons(xs[0], Filter(xs[1..], p), q);
      FilterCons(xs[0], Filter(xs[1..], q), p);
    }
  }

  lemma {:induction false} FilterMonotone<T>(xs: seq<T>, p: T -> bool, q: T -> bool)
    requires forall x <- xs :: p(x) ==> q(x)
    ensures |Filter(xs, p)| <= |Filter(xs, q)|
  {
    if xs != [] {
      assert forall x <- xs[1..] :: x in xs;
      FilterMonotone(xs[1..], p, q);
    }
  }

  function OfEmail(email: Email, cutoff: int): Attempt -> bool {
    (a: Attempt) => a.createdAt > cutoff && a.email == email
  }

  function OfIp(ip: Ip, cutoff: int): Attempt -> bool {
    (a: Attempt) => a.createdAt > cutoff && a.ip == Some(ip)
  }

  function Since(cutoff: int): Attempt -> bool {
    (a: Attempt) => a.createdAt > cutoff
  }

  function SignedUpSince(cutoff: int): SignUp -> bool {
    (a: SignUp) => a.createdAt > cutoff
  }

  function NotOf(email: Email): Attempt -> bool {
    (a: Attempt) => a.email != email
  }

  function TooMany(rows: seq<Attempt>, limits: Limits, email: Email, ip: Option<Ip>, now: int): bool {
    var cutoff := now - limits.window;
    && limits.perEmail > 0
    && (|| |Filter(rows, OfEmail(email, cutoff))| >= limits.perEmail
        || (ip.Some? && limits.perIp > 0 && |Filter(rows, OfIp(ip.value, cutoff))| >= limits.perIp))
  }

  class Attempts {
    var rows: seq<Attempt>
    var signUps: seq<SignUp>
    const limits: Limits

    constructor (limits: Limits)
      ensures rows == [] && signUps == [] && this.limits == limits
    {
      this.limits := limits;
      rows, signUps := [], [];
    }

    method CountSince(cutoff: int, email: Option<Email>, ip: Option<Ip>) returns (n: nat)
      requires email.Some? != ip.Some?
      ensures email.Some? ==> n == |Filter(rows, OfEmail(email.value, cutoff))|
      ensures ip.Some? ==> n == |Filter(rows, OfIp(ip.value, cutoff))|
    {
      n := 0;
      for i := 0 to |rows|
        invariant email.Some? ==>
                    n + |Filter(rows[i..], OfEmail(email.value, cutoff))|
                    == |Filter(rows, OfEmail(email.value, cutoff))|
        invariant ip.Some? ==> n + |Filter(rows[i..], OfIp(ip.value, cutoff))| == |Filter(rows, OfIp(ip.value, cutoff))|
      {
        var a := rows[i];
        if a.createdAt > cutoff && (email.Some? ==> a.email == email.value) && (ip.Some? ==> a.ip == ip) {
          n := n + 1;
        }
      }
    }

    method TooManyAttempts(email: Email, ip: Option<Ip>, now: int) returns (refuse: bool)
      ensures refuse == TooMany(rows, limits, email, ip, now)
    {
      if limits.perEmail <= 0 {
        return false;
      }
      var cutoff := now - limits.window;
      var n := CountSince(cutoff, Some(email), None);
      if n >= limits.perEmail {
        return true;
      }
      if ip.Some? && limits.perIp > 0 {
        n := CountSince(cutoff, None, ip);
        if n >= limits.perIp {
          return true;
        }
      }
      return false;
    }

    /** Rows inside their windows stay; returns how many went, sign-ups
        included. */
    method Prune(now: int) returns (removed: nat)
      modifies this`rows, this`signUps
      ensures rows == Filter(old(rows), Since(now - limits.window))
      ensures signUps == Filter(old(signUps), SignedUpSince(now - limits.signUpWindow))
      ensures removed == (|old(rows)| - |rows|) + (|old(signUps)| - |signUps|)
    {
      var failures := PruneFailures(now);
      var others := PruneSignUps(now);
      removed := failures + others;
    }

    method PruneSignUps(now: int) returns (removed: nat)
      modifies this`signUps
      ensures signUps == Filter(old(signUps), SignedUpSince(now - limits.signUpWindow))
      ensures removed == |old(signUps)| - |signUps|
    {
      var cutoff, kept := now - limits.signUpWindow, [];
      for i := 0 to |signUps|
        invariant signUps == old(signUps)
        invariant kept + Filter(signUps[i..], SignedUpSince(cutoff)) == Filter(signUps, SignedUpSince(cutoff))
        invariant |kept| <= i
      {
        if signUps[i].createdAt > cutoff {
          kept := kept + [signUps[i]];
        }
      }
      removed := |signUps| - |kept|;
      signUps := kept;
    }

    method PruneFailures(now: int) returns (removed: nat)
      modifies this`rows
      ensures rows == Filter(old(rows), Since(now - limits.window))
      ensures removed == |old(rows)| - |rows|
    {
      var cutoff, kept := now - limits.window, [];
      for i := 0 to |rows|
        invariant rows == old(rows)
        invariant kept + Filter(rows[i..], Since(cutoff)) == Filter(rows, Since(cutoff))
        invariant |kept| <= i
      {
        if rows[i].createdAt > cutoff {
          kept := kept + [rows[i]];
        }
      }
      removed := |rows| - |kept|;
      rows := kept;
    }

    /** `sweep` is the draw that prunes once in about fifty failures. */
    method RecordFailure(email: Email, ip: Option<Ip>, now: int, sweep: bool)
      modifies this`rows, this`signUps
      ensures signUps == if sweep then Filter(old(signUps), SignedUpSince(now - limits.signUpWindow)) else old(signUps)
      ensures var recorded := old(rows) + [Attempt(email, ip, now)];
              rows == if sweep then Filter(recorded, Since(now - limits.window)) else recorded
    {
      rows := rows + [Attempt(email, ip, now)];
      if sweep {
        var _ := Prune(now);
      }
    }

    method ClearFailures(email: Email)
      modifies this`rows
      ensures rows == Filter(old(rows), NotOf(email))
    {
      var kept := [];
      for i := 0 to |rows|
        invariant rows == old(rows)
        invariant kept + Filter(rows[i..], NotOf(email)) == Filter(rows, NotOf(email))
      {
        if rows[i].email != email {
          kept := kept + [rows[i]];
        }
      }
      rows := kept;
    }
  }

  /** The sign-in endpoint's use of the ceiling. A failure recorded with a sweep
      is the failure, then the sweep. */
  method Login(table: Attempts, email: Email, ip: Option<Ip>, check: Check, now: int, sweep: bool) returns (ok: bool)
    modifies table`rows, table`signUps
    ensures ok <==> check == GOOD && !TooMany(old(table.rows), table.limits, email, ip, now)
    ensures var signed := Signed(old(table.rows), table.limits, SignIn(email, ip, check), now);
            || table.rows == signed
            || table.rows == Filter(signed, Since(now - table.limits.window))
  {
    var refuse := table.TooManyAttempts(email, ip, now);
    if refuse {
      return false;
    }
    if check == BAD {
      table.RecordFailure(email, ip, now, sweep);
      return false;
    }
    if check == UNVERIFIED {
      return false;
    }
    table.ClearFailures(email);
    return true;
  }

  // ---- Runs -----------------------------------------------------------------

  /** What the endpoint finds once the ceiling has let a caller through: wrong
      credentials or a disabled account, an address not yet verified, or a good
      sign-in. */
  datatype Check = BAD | UNVERIFIED | GOOD

  datatype Event = SignIn(email: Email, ip: Option<Ip>, check: Check) | Sweep

  type Timed = (Event, int)

  /** What a sign-in leaves in the table; refused ones leave it alone. */
  function Signed(rows: seq<Attempt>, limits: Limits, e: Event, now: int): seq<Attempt>
    requires e.SignIn?
  {
    if TooMany(rows, limits, e.email, e.ip, now) then rows
    else if e.check == GOOD then Filter(rows, NotOf(e.email))
    else if e.check == UNVERIFIED then rows
    else rows + [Attempt(e.email, e.ip, now)]
  }

  function After(rows: seq<Attempt>, limits: Limits, e: Timed): seq<Attempt> {
    match e.0
    case SignIn(_, _, _) => Signed(rows, limits, e.0, e.1)
    case Sweep => Filter(rows, Since(e.1 - limits.window))
  }

  function End(rows: seq<Attempt>, limits: Limits, run: seq<Timed>): seq<Attempt>
    decreases run
  {
    if run == [] then rows else End(After(rows, limits, run[0]), limits, run[1..])
  }

  /** Time does not run backwards, from `start` on. */
  ghost predicate Monotone(start: int, run: seq<Timed>)
    decreases run
  {
    run == [] || (start <= run[0].1 && Monotone(run[0].1, run[1..]))
  }

  function WithoutSweeps(run: seq<Timed>): seq<Timed> {
    if run == [] then []
    else if run[0].0.Sweep? then WithoutSweeps(run[1..])
    else [run[0]] + WithoutSweeps(run[1..])
  }

  /** Two tables hold the same rows, as far as anyone looking at `now` or later
      can see. */
  ghost predicate Alike(rows: seq<Attempt>, log: seq<Attempt>, limits: Limits, now: int)
  {
    Filter(rows, Since(now - limits.window)) == Filter(log, Since(now - limits.window))
  }

  lemma AlikeLater(rows: seq<Attempt>, log: seq<Attempt>, limits: Limits, now: int, later: int)
    requires Alike(rows, log, limits, now) && now <= later
    ensures Alike(rows, log, limits, later)
  {
    FilterNarrower(rows, Since(now - limits.window), Since(later - limits.window));
    FilterNarrower(log, Since(now - limits.window), Since(later - limits.window));
  }

  /** Alike tables give every later question the same answer. */
  lemma SameAnswer(rows: seq<Attempt>, log: seq<Attempt>, limits: Limits, now: int, email: Email, ip: Option<Ip>)
    requires Alike(rows, log, limits, now)
    ensures TooMany(rows, limits, email, ip, now) == TooMany(log, limits, email, ip, now)
  {
    var cutoff := now - limits.window;
    FilterNarrower(rows, Since(cutoff), OfEmail(email, cutoff));
    FilterNarrower(log, Since(cutoff), OfEmail(email, cutoff));
    if ip.Some? {
      FilterNarrower(rows, Since(cutoff), OfIp(ip.value, cutoff));
      FilterNarrower(log, Since(cutoff), OfIp(ip.value, cutoff));
    }
  }

  lemma StepsAlike(rows: seq<Attempt>, log: seq<Attempt>, limits: Limits, e: Timed)
    requires Alike(rows, log, limits, e.1)
    ensures Alike(After(rows, limits, e), if e.0.Sweep? then log else After(log, limits, e), limits, e.1)
  {
    var since := Since(e.1 - limits.window);
    match e.0
    case Sweep =>
      FilterNarrower(rows, since, since);
    case SignIn(email, ip, check) =>
      SameAnswer(rows, log, limits, e.1, email, ip);
      FilterCommutes(rows, NotOf(email), since);
      FilterCommutes(log, NotOf(email), since);
      FilterOne(rows, Attempt(email, ip, e.1), since);
      FilterOne(log, Attempt(email, ip, e.1), since);
  }

  /** The pruned table refines the full log: sweeping any number of times,
      anywhere in a run, never changes the answer to any question asked at its
      end or later. */
  lemma {:induction false} SweepsChangeNothing(rows: seq<Attempt>, log: seq<Attempt>, limits: Limits, start: int,
                                               run: seq<Timed>, now: int, email: Email, ip: Option<Ip>)
    requires Alike(rows, log, limits, start) && Monotone(start, run)
    requires if run == [] then start <= now else run[|run| - 1].1 <= now
    ensures TooMany(End(rows, limits, run), limits, email, ip, now)
         == TooMany(End(log, limits, WithoutSweeps(run)), limits, email, ip, now)
    decreases run
  {
    if run == [] {
      AlikeLater(rows, log, limits, start, now);
      SameAnswer(rows, log, limits, now, email, ip);
    } else {
      var e := run[0];
      AlikeLater(rows, log, limits, start, e.1);
      StepsAlike(rows, log, limits, e);
      SweepsChangeNothing(After(rows, limits, e), if e.0.Sweep? then log else After(log, limits, e),
                          limits, e.1, run[1..], now, email, ip);
      if !e.0.Sweep? {
        assert WithoutSweeps(run)[1..] == WithoutSweeps(run[1..]);
      }
    }
  }

  // ---- Exactly who is refused -----------------------------------------------

  /** How many failures of a run still count: those `counted`, of addresses that
      have not signed in since, on attempts that were let through. Read from the
      end of the run, `forgiven` being the addresses that signed in later. No
      table and no sweeping are involved. */
  ghost function Standing(limits: Limits, run: seq<Timed>, counted: Attempt -> bool, forgiven: set<Email>): nat
    decreases |run|, 0
  {
    if run == [] then 0
    else
      var front, e := run[..|run| - 1], run[|run| - 1];
      if e.0.Sweep? || Refused(limits, front, e.0.email, e.0.ip, e.1) || e.0.check == UNVERIFIED then
        Standing(limits, front, counted, forgiven)
      else if e.0.check == GOOD then Standing(limits, front, counted, forgiven + {e.0.email})
      else
        Standing(limits, front, counted, forgiven)
        + if e.0.email !in forgiven && counted(Attempt(e.0.email, e.0.ip, e.1)) then 1 else 0
  }

  ghost function FromEmail(email: Email, after: int): Attempt -> bool {
    (a: Attempt) => a.email == email && after < a.createdAt
  }

  ghost function FromIp(ip: Ip, after: int): Attempt -> bool {
    (a: Attempt) => a.ip == Some(ip) && after < a.createdAt
  }

  /** A sign-in after the run is turned away: the ceiling is on, and either the
      address or a known client address has used up its failures within the
      window. */
  ghost predicate Refused(limits: Limits, run: seq<Timed>, email: Email, ip: Option<Ip>, now: int)
    decreases |run|, 1
  {
    UsedUp(limits, Standing(limits, run, FromEmail(email, now - limits.window), {}), ip,
           if ip.Some? then Standing(limits, run, FromIp(ip.value, now - limits.window), {}) else 0)
  }

  /** Too many failures of the address, or of a known client address. */
  predicate UsedUp(limits: Limits, byEmail: nat, ip: Option<Ip>, byIp: nat) {
    0 < limits.perEmail && (limits.perEmail <= byEmail || (ip.Some? && 0 < limits.perIp <= byIp))
  }

  lemma TooManyIs(rows: seq<Attempt>, limits: Limits, email: Email, ip: Option<Ip>, now: int)
    ensures var after := now - limits.window;
            TooMany(rows, limits, email, ip, now)
            <==> UsedUp(limits, |Filter(rows, OfEmail(email, after))|, ip,
                        if ip.Some? then |Filter(rows, OfIp(ip.value, after))| else 0)
  {
  }

  function Unforgiven(counted: Attempt -> bool, forgiven: set<Email>): Attempt -> bool {
    (a: Attempt) => counted(a) && a.email !in forgiven
  }

  lemma {:induction false} FilterBoth<T>(xs: seq<T>, p: T -> bool, q: T -> bool, both: T -> bool)
    requires forall x <- xs :: both(x) <==> p(x) && q(x)
    ensures Filter(Filter(xs, p), q) == Filter(xs, both)
    decreases xs
  {
    if xs != [] {
      assert forall x <- xs[1..] :: x in xs;
      FilterBoth(xs[1..], p, q, both);
      FilterCons(xs[0], Filter(xs[1..], p), q);
    }
  }

  lemma {:induction false} FilterSame<T>(xs: seq<T>, p: T -> bool, q: T -> bool)
    requires forall x <- xs :: p(x) <==> q(x)
    ensures Filter(xs, p) == Filter(xs, q)
    decreases xs
  {
    if xs != [] {
      assert forall x <- xs[1..] :: x in xs;
      FilterSame(xs[1..], p, q);
    }
  }

  lemma {:induction false} EndNext(rows: seq<Attempt>, limits: Limits, run: seq<Timed>)
    requires run != []
    ensures End(rows, limits, run) == After(End(rows, limits, run[..|run| - 1]), limits, run[|run| - 1])
    decreases run
  {
    var front := run[..|run| - 1];
    if |run| == 1 {
      assert front == [] && run[1..] == [];
    } else {
      assert run[1..][..|run| - 2] == front[1..] && run[1..][|run| - 2] == run[|run| - 1];
      EndNext(After(rows, limits, run[0]), limits, run[1..]);
    }
  }

  lemma {:induction false} MonotoneFront(start: int, run: seq<Timed>)
    requires Monotone(start, run) && run != []
    ensures Monotone(start, run[..|run| - 1])
    ensures |run| >= 2 ==> run[|run| - 2].1 <= run[|run| - 1].1
    decreases run
  {
    if |run| >= 2 {
      assert run[..|run| - 1][1..] == run[1..][..|run| - 2];
      MonotoneFront(run[0].1, run[1..]);
    }
  }

  /** Only rows of the window that ends at `now` are counted. */
  ghost predicate Recent(counted: Attempt -> bool, after: int)
  {
    forall a :: counted(a) ==> after < a.createdAt
  }

  lemma SweptCount(rows: seq<Attempt>, counted: Attempt -> bool, forgiven: set<Email>, after: int, cutoff: int)
    requires Recent(counted, after) && cutoff <= after
    ensures Filter(Filter(rows, Since(cutoff)), Unforgiven(counted, forgiven))
         == Filter(rows, Unforgiven(counted, forgiven))
  {
    FilterNarrower(rows, Since(cutoff), Unforgiven(counted, forgiven));
  }

  lemma ClearedCount(rows: seq<Attempt>, counted: Attempt -> bool, forgiven: set<Email>, email: Email)
    ensures Filter(Filter(rows, NotOf(email)), Unforgiven(counted, forgiven))
         == Filter(rows, Unforgiven(counted, forgiven + {email}))
  {
    FilterBoth(rows, NotOf(email), Unforgiven(counted, forgiven), Unforgiven(counted, forgiven + {email}));
  }

  lemma FailedCount(rows: seq<Attempt>, counted: Attempt -> bool, forgiven: set<Email>, a: Attempt)
    ensures |Filter(rows + [a], Unforgiven(counted, forgiven))|
         == |Filter(rows, Unforgiven(counted, forgiven))| + if a.email !in forgiven && counted(a) then 1 else 0
  {
    FilterOne(rows, a, Unforgiven(counted, forgiven));
  }

  /** What the table still has of the counted rows is what the run says. */
  lemma {:induction false} TableStands(limits: Limits, start: int, run: seq<Timed>, counted: Attempt -> bool,
                                       forgiven: set<Email>, now: int)
    requires Monotone(start, run) && Recent(counted, now - limits.window)
    requires run != [] ==> run[|run| - 1].1 <= now
    ensures |Filter(End([], limits, run), Unforgiven(counted, forgiven))| == Standing(limits, run, counted, forgiven)
    decreases |run|, 0
  {
    if run != [] {
      var front, e := run[..|run| - 1], run[|run| - 1];
      EndNext([], limits, run);
      MonotoneFront(start, run);
      if e.0.Sweep? {
        SweepStands(limits, start, front, e.1, counted, forgiven, now);
      } else {
        RefusedIsTooMany(limits, start, front, e.0.email, e.0.ip, e.1);
        SignInStands(limits, start, front, e, counted, forgiven, now);
      }
    }
  }

  lemma {:induction false} SweepStands(limits: Limits, start: int, front: seq<Timed>, at: int,
                                       counted: Attempt -> bool, forgiven: set<Email>, now: int)
    requires Monotone(start, front) && Recent(counted, now - limits.window) && at <= now
    requires front != [] ==> front[|front| - 1].1 <= now
    ensures |Filter(After(End([], limits, front), limits, (Sweep, at)), Unforgiven(counted, forgiven))|
         == Standing(limits, front, counted, forgiven)
    decreases |front|, 1
  {
    TableStands(limits, start, front, counted, forgiven, now);
    SweptCount(End([], limits, front), counted, forgiven, now - limits.window, at - limits.window);
  }

  lemma {:induction false} SignInStands(limits: Limits, start: int, front: seq<Timed>, e: Timed,
                                        counted: Attempt -> bool, forgiven: set<Email>, now: int)
    requires Monotone(start, front) && Recent(counted, now - limits.window) && e.0.SignIn?
    requires front != [] ==> front[|front| - 1].1 <= now
    requires TooMany(End([], limits, front), limits, e.0.email, e.0.ip, e.1)
        <==> Refused(limits, front, e.0.email, e.0.ip, e.1)
    ensures |Filter(After(End([], limits, front), limits, e), Unforgiven(counted, forgiven))|
         == if Refused(limits, front, e.0.email, e.0.ip, e.1) || e.0.check == UNVERIFIED
            then Standing(limits, front, counted, forgiven)
            else if e.0.check == GOOD then Standing(limits, front, counted, forgiven + {e.0.email})
            else Standing(limits, front, counted, forgiven)
                 + if e.0.email !in forgiven && counted(Attempt(e.0.email, e.0.ip, e.1)) then 1 else 0
    decreases |front|, 1
  {
    var rows := End([], limits, front);
    TableStands(limits, start, front, counted, forgiven, now);
    if e.0.check == GOOD {
      TableStands(limits, start, front, counted, forgiven + {e.0.email}, now);
      ClearedCount(rows, counted, forgiven, e.0.email);
    } else {
      FailedCount(rows, counted, forgiven, Attempt(e.0.email, e.0.ip, e.1));
    }
  }

  lemma {:induction false} EmailStands(limits: Limits, start: int, run: seq<Timed>, email: Email, now: int)
    requires Monotone(start, run) && (run != [] ==> run[|run| - 1].1 <= now)
    ensures var after := now - limits.window;
            |Filter(End([], limits, run), OfEmail(email, after))| == Standing(limits, run, FromEmail(email, after), {})
    decreases |run|, 1
  {
    var after := now - limits.window;
    TableStands(limits, start, run, FromEmail(email, after), {}, now);
    FilterSame(End([], limits, run), Unforgiven(FromEmail(email, after), {}), OfEmail(email, after));
  }

  lemma {:induction false} IpStands(limits: Limits, start: int, run: seq<Timed>, ip: Ip, now: int)
    requires Monotone(start, run) && (run != [] ==> run[|run| - 1].1 <= now)
    ensures var after := now - limits.window;
            |Filter(End([], limits, run), OfIp(ip, after))| == Standing(limits, run, FromIp(ip, after), {})
    decreases |run|, 1
  {
    var after := now - limits.window;
    TableStands(limits, start, run, FromIp(ip, after), {}, now);
    FilterSame(End([], limits, run), Unforgiven(FromIp(ip, after), {}), OfIp(ip, after));
  }

  /** Over every run from an empty table, sweeps included, the table refuses
      exactly those whom the run itself refuses: nobody too late, and nobody
      early. */
  lemma {:induction false} RefusedIsTooMany(limits: Limits, start: int, run: seq<Timed>, email: Email, ip: Option<Ip>,
                                            now: int)
    requires Monotone(start, run) && (run != [] ==> run[|run| - 1].1 <= now)
    ensures TooMany(End([], limits, run), limits, email, ip, now) <==> Refused(limits, run, email, ip, now)
    decreases |run|, 2
  {
    TooManyIs(End([], limits, run), limits, email, ip, now);
    EmailStands(limits, start, run, email, now);
    if ip.Some? {
      IpStands(limits, start, run, ip.value, now);
    }
  }

  // ---- The ceiling holds ----------------------------------------------------

  /** What was recorded, in order, and never forgotten. */
  datatype Record = Failed(email: Email, at: int) | Entered(email: Email, at: int)

  /** What one event adds to the history. */
  function Recorded(rows: seq<Attempt>, limits: Limits, e: Timed): seq<Record> {
    if e.0.Sweep? || TooMany(rows, limits, e.0.email, e.0.ip, e.1) || e.0.check == UNVERIFIED then []
    else if e.0.check == GOOD then [Entered(e.0.email, e.1)]
    else [Failed(e.0.email, e.1)]
  }

  function History(rows: seq<Attempt>, limits: Limits, run: seq<Timed>): seq<Record>
    decreases run
  {
    if run == [] then []
    else Recorded(rows, limits, run[0]) + History(After(rows, limits, run[0]), limits, run[1..])
  }

  function FailedIn(email: Email, from: int, to: int): Record -> bool {
    (r: Record) => r.Failed? && r.email == email && from < r.at <= to
  }

  function EnteredIn(email: Email, from: int, to: int): Record -> bool {
    (r: Record) => r.Entered? && r.email == email && from < r.at <= to
  }

  /** A window that holds no successful sign-in of an address holds at most the
      limit of its failures. */
  ghost predicate CappedAt(h: seq<Record>, limits: Limits, email: Email, t: int)
  {
    var from := t - limits.window;
    Filter(h, EnteredIn(email, from, t)) == [] ==> |Filter(h, FailedIn(email, from, t))| <= limits.perEmail
  }

  /** The table still counts every failure such a window would hold. */
  ghost predicate CoveredAt(rows: seq<Attempt>, h: seq<Record>, email: Email, from: int, to: int)
  {
    Filter(h, EnteredIn(email, from, to)) == []
    ==> |Filter(h, FailedIn(email, from, to))| <= |Filter(rows, OfEmail(email, from))|
  }

  ghost predicate Sound(rows: seq<Attempt>, h: seq<Record>, limits: Limits, now: int)
  {
    && (forall r <- h :: r.at <= now)
    && (forall email, t :: CappedAt(h, limits, email, t))
    && (forall email, from, to | now - limits.window <= from && now <= to :: CoveredAt(rows, h, email, from, to))
  }

  lemma {:induction false} FilterNone<T>(xs: seq<T>, p: T -> bool)
    requires forall x <- xs :: !p(x)
    ensures Filter(xs, p) == []
    decreases xs
  {
    if xs != [] {
      assert forall x <- xs[1..] :: x in xs;
      FilterNone(xs[1..], p);
    }
  }

  /** Adding the record `r` at `now` to a sound history, the table becoming
      `rows'`, keeps the table's count ahead of every window. */
  lemma CoveredNext(rows: seq<Attempt>, h: seq<Record>, limits: Limits, e: Timed, email: Email, from: int, to: int)
    requires Sound(rows, h, limits, e.1)
    requires e.1 - limits.window <= from && e.1 <= to
    ensures CoveredAt(After(rows, limits, e), h + Recorded(rows, limits, e), email, from, to)
  {
    assert CoveredAt(rows, h, email, from, to);
    var added := Recorded(rows, limits, e);
    if added == [] {
      assert h + added == h;
      if e.0.Sweep? {
        FilterNarrower(rows, Since(e.1 - limits.window), OfEmail(email, from));
      }
    } else {
      FilterOne(h, added[0], EnteredIn(email, from, to));
      FilterOne(h, added[0], FailedIn(email, from, to));
      if added[0].Failed? {
        FilterOne(rows, Attempt(e.0.email, e.0.ip, e.1), OfEmail(email, from));
      } else if e.0.email != email {
        FilterNarrower(rows, NotOf(e.0.email), OfEmail(email, from));
      } else if e.1 <= from {
        FilterNone(h, FailedIn(email, from, to));
      }
    }
  }

  lemma CappedNext(rows: seq<Attempt>, h: seq<Record>, limits: Limits, e: Timed, email: Email, t: int)
    requires Sound(rows, h, limits, e.1) && 0 < limits.perEmail && 0 <= limits.window
    ensures CappedAt(h + Recorded(rows, limits, e), limits, email, t)
  {
    assert CappedAt(h, limits, email, t);
    var added, from := Recorded(rows, limits, e), t - limits.window;
    if added == [] {
      assert h + added == h;
    } else {
      FilterOne(h, added[0], EnteredIn(email, from, t));
      FilterOne(h, added[0], FailedIn(email, from, t));
      if added[0].Failed? && e.0.email == email && from < e.1 <= t {
        assert CoveredAt(rows, h, email, from, t);
        FilterMonotone(rows, OfEmail(email, from), OfEmail(email, e.1 - limits.window));
      }
    }
  }

  lemma SoundLater(rows: seq<Attempt>, h: seq<Record>, limits: Limits, now: int, later: int)
    requires Sound(rows, h, limits, now) && now <= later
    ensures Sound(rows, h, limits, later)
  {
  }

  lemma SoundNext(rows: seq<Attempt>, h: seq<Record>, limits: Limits, e: Timed)
    requires Sound(rows, h, limits, e.1) && 0 < limits.perEmail && 0 <= limits.window
    ensures Sound(After(rows, limits, e), h + Recorded(rows, limits, e), limits, e.1)
  {
    var h' := h + Recorded(rows, limits, e);
    forall email, t
      ensures CappedAt(h', limits, email, t)
    {
      CappedNext(rows, h, limits, e, email, t);
    }
    forall email, from, to | e.1 - limits.window <= from && e.1 <= to
      ensures CoveredAt(After(rows, limits, e), h', email, from, to)
    {
      CoveredNext(rows, h, limits, e, email, from, to);
    }
  }

  lemma {:induction false} RunsStaySound(rows: seq<Attempt>, h: seq<Record>, limits: Limits, start: int,
                                         run: seq<Timed>)
    requires Sound(rows, h, limits, start) && 0 < limits.perEmail && 0 <= limits.window
    requires Monotone(start, run)
    ensures forall email, t :: CappedAt(h + History(rows, limits, run), limits, email, t)
    decreases run
  {
    if run == [] {
      assert h + History(rows, limits, run) == h;
    } else {
      var e := run[0];
      var added := Recorded(rows, limits, e);
      SoundLater(rows, h, limits, start, e.1);
      SoundNext(rows, h, limits, e);
      RunsStaySound(After(rows, limits, e), h + added, limits, e.1, run[1..]);
      assert h + History(rows, limits, run) == h + added + History(After(rows, limits, e), limits, run[1..]);
    }
  }

  /** The ceiling: in every run from an empty table, sweeps included, any span
      of one window's length without a successful sign-in of an address holds at
      most the limit of recorded failures of it. */
  lemma CeilingHolds(limits: Limits, start: int, run: seq<Timed>, email: Email, t: int)
    requires 0 < limits.perEmail && 0 <= limits.window && Monotone(start, run)
    ensures var h := History([], limits, run);
            Filter(h, EnteredIn(email, t - limits.window, t)) == []
            ==> |Filter(h, FailedIn(email, t - limits.window, t))| <= limits.perEmail
  {
    RunsStaySound([], [], limits, start, run);
    assert [] + History([], limits, run) == History([], limits, run);
    assert CappedAt(History([], limits, run), limits, email, t);
  }
}
