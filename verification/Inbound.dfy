/** Handling a message a platform has delivered, perhaps not for the first time.

    Several workers may hold the same redelivered message at once, and any of
    them may die between two steps. What each step commits is kept in bags of
    message keys, so "at most once" is a multiplicity. */
module Inbound {
  import opened Wrappers

  /** The platform connection and the platform's own id for the message. */
  datatype Key = Key(connection: nat, externalId: nat)

  datatype Kind = TEXT | VOICE | OTHER

  datatype Message = Message(key: Key, kind: Kind, hasText: bool)

  /** What the assistant produced: a text or none, photos, perhaps a payment QR,
      and whether it promises that the seller will get back. Each image says
      whether the platform will take it. */
  datatype Reply = Reply(hasText: bool, photos: seq<bool>, qr: Option<bool>, wantsSeller: bool)

  /** Everything the handler meets and does not decide. `kept` counts the
      attachments that could be downloaded and stored; `manual` is the thread's
      mode after a due resume. */
  datatype Env = Env(
    active: bool, kept: nat, awaitingPayment: bool, autoReply: bool, manual: bool,
    withinQuota: bool, generated: Option<Reply>, accepts: bool)

  /** What is committed, and what was asked of the platform.
      stored:   customer messages, under the unique index
      charged:  replies counted against the seller's day
      tried:    text replies handed to the platform; accepted: those it took
      replied:  assistant text rows
      images:   photos and payment codes the platform took
      flagged:  threads marked for the seller; alerted: receipts queued for reading */
  datatype Db = Db(
    stored: multiset<Key>, charged: multiset<Key>, tried: multiset<Key>, accepted: multiset<Key>,
    replied: multiset<Key>, images: multiset<Key>, flagged: multiset<Key>, alerted: multiset<Key>)

  const EMPTY := Db(multiset{}, multiset{}, multiset{}, multiset{}, multiset{}, multiset{}, multiset{}, multiset{})

  /** The bag with `n` more of a key. */
  function Add(bag: multiset<Key>, k: Key, n: nat): multiset<Key> {
    if n == 0 then bag else bag[k := bag[k] + n]
  }

  lemma AddTwice(bag: multiset<Key>, k: Key, m: nat, n: nat)
    ensures Add(Add(bag, k, m), k, n) == Add(bag, k, m + n)
  {
  }

  // ---- The steps of the protocol --------------------------------------------

  type WorkerId = nat

  /** Where a worker stands: it has looked and found nothing, stored the
      message, been charged for a reply within the day's limit, had a text reply
      accepted, or can no longer answer (over the limit, or refused). */
  datatype Stage = LOOKED | STORED | CHARGED | SENT | CLOSED

  datatype Task = Task(key: Key, stage: Stage)

  datatype World = World(db: Db, tasks: map<WorkerId, Task>)

  datatype Step =
    | Look(worker: WorkerId, key: Key)
    | Insert(worker: WorkerId)
    | Alert(worker: WorkerId)
    | Flag(worker: WorkerId)
    | Spend(worker: WorkerId, withinQuota: bool)
    | Send(worker: WorkerId, accepted: bool)
    | SendImage(worker: WorkerId, accepted: bool)
    | Record(worker: WorkerId)
    | Leave(worker: WorkerId)       // returns early, fails, or dies

  const START := World(EMPTY, map[])

  ghost predicate Enabled(s: World, a: Step)
  {
    match a
    case Look(w, _) => w !in s.tasks
    case Insert(w) => w in s.tasks && s.tasks[w].stage == LOOKED
    case Alert(w) => w in s.tasks && s.tasks[w].stage == STORED
    case Flag(w) => w in s.tasks && s.tasks[w].stage != LOOKED
    case Spend(w, _) => w in s.tasks && s.tasks[w].stage == STORED
    case Send(w, _) => w in s.tasks && s.tasks[w].stage == CHARGED
    case SendImage(w, _) => w in s.tasks && (s.tasks[w].stage == CHARGED || s.tasks[w].stage == SENT)
    case Record(w) => w in s.tasks && s.tasks[w].stage == SENT
    case Leave(w) => w in s.tasks
  }

  ghost function After(s: World, a: Step): World
    requires Enabled(s, a)
  {
    match a
    case Look(w, key) =>
      if key in s.db.stored then s else s.(tasks := s.tasks[w := Task(key, LOOKED)])
    case Insert(w) =>
      var key := s.tasks[w].key;
      // The unique index refuses a second row; the worker gives up.
      if key in s.db.stored then s.(tasks := s.tasks - {w})
      else World(s.db.(stored := Add(s.db.stored, key, 1)), s.tasks[w := Task(key, STORED)])
    case Alert(w) =>
      s.(db := s.db.(alerted := Add(s.db.alerted, s.tasks[w].key, 1)))
    case Flag(w) =>
      s.(db := s.db.(flagged := Add(s.db.flagged, s.tasks[w].key, 1)))
    case Spend(w, withinQuota) =>
      var key := s.tasks[w].key;
      World(s.db.(charged := Add(s.db.charged, key, 1)),
            s.tasks[w := Task(key, if withinQuota then CHARGED else CLOSED)])
    case Send(w, accepted) =>
      var key := s.tasks[w].key;
      World(s.db.(tried := Add(s.db.tried, key, 1),
                  accepted := if accepted then Add(s.db.accepted, key, 1) else s.db.accepted),
            s.tasks[w := Task(key, if accepted then SENT else CLOSED)])
    case SendImage(w, accepted) =>
      if accepted then s.(db := s.db.(images := Add(s.db.images, s.tasks[w].key, 1))) else s
    case Record(w) =>
      World(s.db.(replied := Add(s.db.replied, s.tasks[w].key, 1)), s.tasks - {w})
    case Leave(w) => s.(tasks := s.tasks - {w})
  }

  ghost predicate Legal(s: World, run: seq<Step>)
    decreases run
  {
    run == [] || (Enabled(s, run[0]) && Legal(After(s, run[0]), run[1..]))
  }

  ghost function End(s: World, run: seq<Step>): World
    requires Legal(s, run)
    decreases run
  {
    if run == [] then s else End(After(s, run[0]), run[1..])
  }

  lemma {:induction false} Extend(s: World, run: seq<Step>, a: Step)
    requires Legal(s, run) && Enabled(End(s, run), a)
    ensures Legal(s, run + [a]) && End(s, run + [a]) == After(End(s, run), a)
    decreases run
  {
    if run == [] {
      assert run + [a] == [a] && [a][1..] == [];
    } else {
      assert (run + [a])[1..] == run[1..] + [a];
      Extend(After(s, run[0]), run[1..], a);
    }
  }

  // ---- At most once, under any interleaving ---------------------------------

  /** Each thing happens at most once, and only after what must come before. */
  ghost predicate KeyOk(db: Db, k: Key)
  {
    db.replied[k] <= db.accepted[k] <= db.tried[k] <= db.charged[k] <= db.stored[k] <= 1
  }

  ghost predicate TaskOk(s: World, w: WorkerId)
    requires w in s.tasks
  {
    var key := s.tasks[w].key;
    match s.tasks[w].stage
    case LOOKED => true
    case STORED => s.db.stored[key] == 1 && s.db.charged[key] == 0
    case CHARGED => s.db.charged[key] == 1 && s.db.tried[key] == 0
    case SENT => s.db.accepted[key] == 1 && s.db.replied[key] == 0
    case CLOSED => s.db.stored[key] == 1
  }

  /** Past the insert, a message belongs to one worker. */
  ghost predicate OneOwner(s: World, v: WorkerId, w: WorkerId)
    requires v in s.tasks && w in s.tasks
  {
    v != w && s.tasks[v].stage != LOOKED && s.tasks[w].stage != LOOKED ==> s.tasks[v].key != s.tasks[w].key
  }

  ghost predicate Inv(s: World)
  {
    && (forall k :: KeyOk(s.db, k))
    && (forall w <- s.tasks :: TaskOk(s, w))
    && (forall v <- s.tasks, w <- s.tasks :: OneOwner(s, v, w))
  }

  lemma StepKeepsInv(s: World, a: Step)
    requires Inv(s) && Enabled(s, a)
    ensures Inv(After(s, a))
  {
    var t := After(s, a);
    forall k
      ensures KeyOk(t.db, k)
    {
      StepKeepsKey(s, a, k);
    }
    forall w | w in t.tasks
      ensures TaskOk(t, w)
    {
      StepKeepsTask(s, a, w);
    }
    forall v, w | v in t.tasks && w in t.tasks
      ensures OneOwner(t, v, w)
    {
      StepKeepsOwner(s, a, v, w);
    }
  }

  lemma StepKeepsKey(s: World, a: Step, k: Key)
    requires Inv(s) && Enabled(s, a)
    ensures KeyOk(After(s, a).db, k)
  {
    assert KeyOk(s.db, k);
    if a.worker in s.tasks {
      assert TaskOk(s, a.worker) && KeyOk(s.db, s.tasks[a.worker].key);
    }
  }

  lemma StepKeepsTask(s: World, a: Step, w: WorkerId)
    requires Inv(s) && Enabled(s, a)
    requires w in After(s, a).tasks
    ensures TaskOk(After(s, a), w)
  {
    if w in s.tasks {
      assert TaskOk(s, w) && KeyOk(s.db, s.tasks[w].key);
      if a.worker in s.tasks {
        assert TaskOk(s, a.worker) && OneOwner(s, a.worker, w);
      }
    }
  }

  lemma StepKeepsOwner(s: World, a: Step, v: WorkerId, w: WorkerId)
    requires Inv(s) && Enabled(s, a)
    requires v in After(s, a).tasks && w in After(s, a).tasks
    ensures OneOwner(After(s, a), v, w)
  {
    if v in s.tasks && w in s.tasks {
      assert OneOwner(s, v, w) && TaskOk(s, v) && TaskOk(s, w);
      assert KeyOk(s.db, s.tasks[v].key) && KeyOk(s.db, s.tasks[w].key);
    }
  }

  lemma {:induction false} RunsKeepInv(s: World, run: seq<Step>)
    requires Inv(s) && Legal(s, run)
    ensures Inv(End(s, run))
    decreases run
  {
    if run != [] {
      StepKeepsInv(s, run[0]);
      RunsKeepInv(After(s, run[0]), run[1..]);
    }
  }

  /** At most once: in every interleaving of any number of workers, deaths and
      redeliveries, a message is stored at most once, charged at most once and
      only if stored, offered a text reply at most once and only if charged; and
      an assistant text row exists only for a reply the platform accepted. */
  lemma AtMostOnce(run: seq<Step>, k: Key)
    requires Legal(START, run)
    ensures var db := End(START, run).db;
            db.replied[k] <= db.accepted[k] <= db.tried[k] <= db.charged[k] <= db.stored[k] <= 1
  {
    RunsKeepInv(START, run);
    assert KeyOk(End(START, run).db, k);
  }

  // ---- Messages that leave no trace -----------------------------------------

  /** No receipt alert, no mark, nothing the platform took and no reply row. */
  ghost predicate Traceless(db: Db, k: Key)
  {
    db.alerted[k] == 0 && db.flagged[k] == 0 && db.accepted[k] == 0 && db.replied[k] == 0 && db.images[k] == 0
  }

  /** The steps that reach the seller or the customer. */
  predicate Reaches(a: Step) {
    a.Alert? || a.Flag? || (a.Send? && a.accepted) || (a.SendImage? && a.accepted)
  }

  /** The worker has stored the message and is still at work on it. */
  ghost predicate Owns(s: World, w: WorkerId, k: Key)
  {
    w in s.tasks && s.tasks[w].key == k && s.tasks[w].stage != LOOKED
  }

  /** Some step of the run reaches someone about the message. */
  ghost predicate Reached(s: World, run: seq<Step>, k: Key)
    requires Legal(s, run)
    decreases run
  {
    run != [] && ((Reaches(run[0]) && Owns(s, run[0].worker, k)) || Reached(After(s, run[0]), run[1..], k))
  }

  lemma StepTraces(s: World, a: Step, k: Key)
    requires Inv(s) && Enabled(s, a)
    ensures Traceless(After(s, a).db, k) <==> Traceless(s.db, k) && !(Reaches(a) && Owns(s, a.worker, k))
  {
    if a.worker in s.tasks {
      assert TaskOk(s, a.worker);
    }
  }

  /** In any interleaving, a message has no trace exactly when no step of the
      worker that stored it reached anyone. How that worker came to stop does
      not matter: it may have returned, raised or died at any point. */
  lemma {:induction false} SilentRuns(s: World, run: seq<Step>, k: Key)
    requires Inv(s) && Legal(s, run)
    ensures Traceless(End(s, run).db, k) <==> Traceless(s.db, k) && !Reached(s, run, k)
    decreases run
  {
    if run != [] {
      StepTraces(s, run[0], k);
      StepKeepsInv(s, run[0]);
      SilentRuns(After(s, run[0]), run[1..], k);
    }
  }

  /** Stored, and no worker is at work on it any more. */
  ghost predicate Abandoned(s: World, k: Key)
  {
    s.db.stored[k] > 0 && forall w <- s.tasks :: !Owns(s, w, k)
  }

  ghost predicate SameFor(db: Db, db': Db, k: Key)
  {
    && db'.stored[k] == db.stored[k] && db'.charged[k] == db.charged[k] && db'.tried[k] == db.tried[k]
    && db'.accepted[k] == db.accepted[k] && db'.replied[k] == db.replied[k] && db'.images[k] == db.images[k]
    && db'.flagged[k] == db.flagged[k] && db'.alerted[k] == db.alerted[k]
  }

  lemma StepLeavesAbandoned(s: World, a: Step, k: Key)
    requires Abandoned(s, k) && Enabled(s, a)
    ensures Abandoned(After(s, a), k) && SameFor(s.db, After(s, a).db, k)
  {
    if a.worker in s.tasks {
      assert !Owns(s, a.worker, k);
    }
    forall w | w in After(s, a).tasks
      ensures !Owns(After(s, a), w, k)
    {
      if w in s.tasks {
        assert !Owns(s, w, k);
      }
    }
  }

  /** Once its worker is gone nothing touches a stored message again, however
      often it is delivered. */
  lemma {:induction false} AbandonedForGood(s: World, run: seq<Step>, k: Key)
    requires Abandoned(s, k) && Legal(s, run)
    ensures Abandoned(End(s, run), k) && SameFor(s.db, End(s, run).db, k)
    decreases run
  {
    if run != [] {
      StepLeavesAbandoned(s, run[0], k);
      AbandonedForGood(After(s, run[0]), run[1..], k);
    }
  }

  ghost predicate StaysTraceless(s: World, k: Key)
  {
    forall run :: Legal(s, run) ==> Traceless(End(s, run).db, k)
  }

  lemma OwnerMayMark(s: World, w: WorkerId, k: Key)
    requires Owns(s, w, k)
    ensures !StaysTraceless(s, k)
  {
    var none: seq<Step> := [];
    Extend(s, none, Flag(w));
    assert Legal(s, none + [Flag(w)]);
  }

  /** Lost for good: a stored message stays without a trace through every
      continuation exactly when it has none now and its worker is gone. */
  lemma LostForGood(s: World, k: Key)
    requires s.db.stored[k] > 0
    ensures StaysTraceless(s, k) <==> Traceless(s.db, k) && Abandoned(s, k)
  {
    var none: seq<Step> := [];
    assert Legal(s, none) && End(s, none) == s;
    if w :| w in s.tasks && Owns(s, w, k) {
      OwnerMayMark(s, w, k);
    }
    if Traceless(s.db, k) && Abandoned(s, k) {
      forall run | Legal(s, run)
        ensures Traceless(End(s, run).db, k)
      {
        AbandonedForGood(s, run, k);
      }
    }
  }

  /** It happens: a worker that dies right after storing a message leaves it
      lost. */
  lemma DiesSilently(k: Key) returns (run: seq<Step>)
    ensures Legal(START, run) && End(START, run).db.stored[k] == 1
    ensures Traceless(End(START, run).db, k) && Abandoned(End(START, run), k)
  {
    Extend(START, [], Look(0, k));
    Extend(START, [] + [Look(0, k)], Insert(0));
    Extend(START, [] + [Look(0, k)] + [Insert(0)], Leave(0));
    run := [] + [Look(0, k)] + [Insert(0)] + [Leave(0)];
  }

  /** A call cut short after any number of its steps is a run too, ended by the
      worker's leaving. */
  lemma {:induction false} CutShortIsARun(s: World, run: seq<Step>, n: nat, w: WorkerId)
    requires Legal(s, run) && n <= |run|
    ensures Legal(s, run[..n])
    ensures w in End(s, run[..n]).tasks ==> Legal(s, run[..n] + [Leave(w)])
    decreases n
  {
    if n == 0 {
      assert run[..n] == [];
    } else {
      assert run[..n][1..] == run[1..][..n - 1];
      CutShortIsARun(After(s, run[0]), run[1..], n - 1, w);
    }
    if w in End(s, run[..n]).tasks {
      Extend(s, run[..n], Leave(w));
    }
  }

  // ---- One undisturbed run of the handler -----------------------------------

  function CountTrue(bs: seq<bool>): nat {
    if bs == [] then 0 else (if bs[0] then 1 else 0) + CountTrue(bs[1..])
  }

  function Taken(image: Option<bool>): nat {
    if image == Some(true) then 1 else 0
  }

  /** How handling a message that was not stored before ends. */
  datatype Ending =
    | Told                       // the seller is asked to answer
    | Quiet                      // no one is asked and nothing is sent
    | OverLimit | NothingWritten | Refused
    | Answered(reply: Reply)

  /** What comes of trying to answer; charged for, however it ends. */
  function Attempt(e: Env): Ending {
    if !e.withinQuota then OverLimit
    else if e.generated.None? then NothingWritten
    else if e.generated.value.hasText && !e.accepts then Refused
    else Answered(e.generated.value)
  }

  function EndingOf(m: Message, e: Env): Ending {
    var receipt := e.kept > 0 && e.awaitingPayment;
    if m.kind == VOICE && !m.hasText then Told
    else if m.kind == OTHER && !m.hasText then Told
    else if e.manual || !e.autoReply then (if !receipt || m.hasText then Told else Quiet)
    else if !m.hasText then (if e.kept > 0 && !receipt then Told else Quiet)
    else Attempt(e)
  }

  function VoiceMark(m: Message): nat {
    if m.kind == VOICE then 1 else 0
  }

  /** The mark a reply asks for itself, if any of it arrived. */
  function Promised(reply: Reply): nat {
    if reply.wantsSeller && (reply.hasText || Pictures(Answered(reply)) > 0) then 1 else 0
  }

  /** The marks of an attempt to answer: a refusal, the limit and silence are
      marked, and an answer that promises the seller. */
  function AttemptMarks(ending: Ending): nat {
    if ending.Answered? then Promised(ending.reply) else 1
  }

  /** How often the thread is marked for the seller. A voice note is marked on
      arrival, whatever follows. */
  function Marks(m: Message, e: Env): nat {
    var ending := EndingOf(m, e);
    VoiceMark(m)
    + match ending
      case Told => if m.kind == VOICE && !m.hasText then 0 else 1
      case Quiet => 0
      case _ => AttemptMarks(ending)
  }

  function Charges(ending: Ending): nat {
    if ending.Told? || ending.Quiet? then 0 else 1
  }

  function Offers(ending: Ending): nat {
    if ending.Refused? || (ending.Answered? && ending.reply.hasText) then 1 else 0
  }

  function Texts(ending: Ending): nat {
    if ending.Answered? && ending.reply.hasText then 1 else 0
  }

  function Pictures(ending: Ending): nat {
    if ending.Answered? then CountTrue(ending.reply.photos) + Taken(ending.reply.qr) else 0
  }

  /** What the database holds after one undisturbed call of `handle_inbound`. */
  function Handled(db: Db, m: Message, e: Env): Db {
    if !e.active || db.stored[m.key] > 0 then db
    else
      var ending := EndingOf(m, e);
      Db(stored := Add(db.stored, m.key, 1),
         charged := Add(db.charged, m.key, Charges(ending)),
         tried := Add(db.tried, m.key, Offers(ending)),
         accepted := Add(db.accepted, m.key, Texts(ending)),
         replied := Add(db.replied, m.key, Texts(ending)),
         images := Add(db.images, m.key, Pictures(ending)),
         flagged := Add(db.flagged, m.key, Marks(m, e)),
         alerted := Add(db.alerted, m.key, if e.kept > 0 && e.awaitingPayment then 1 else 0))
  }

  class Inbox {
    var stored: multiset<Key>
    var charged: multiset<Key>
    var tried: multiset<Key>
    var accepted: multiset<Key>
    var replied: multiset<Key>
    var images: multiset<Key>
    var flagged: multiset<Key>
    var alerted: multiset<Key>

    ghost function State(): Db
      reads this
    {
      Db(stored, charged, tried, accepted, replied, images, flagged, alerted)
    }

    constructor ()
      ensures State() == EMPTY
    {
      stored, charged, tried, accepted := multiset{}, multiset{}, multiset{}, multiset{};
      replied, images, flagged, alerted := multiset{}, multiset{}, multiset{}, multiset{};
    }

    method NeedsSeller(k: Key)
      modifies this`flagged
      ensures flagged == Add(old(flagged), k, 1)
    {
      flagged := Add(flagged, k, 1);
    }

    /** The photos of a reply, each on its own. */
    method SendPhotos(k: Key, photos: seq<bool>) returns (sent: nat)
      modifies this`images
      ensures sent == CountTrue(photos)
      ensures images == Add(old(images), k, sent)
    {
      sent := 0;
      for i := 0 to |photos|
        invariant images == Add(old(images), k, sent)
        invariant sent + CountTrue(photos[i..]) == CountTrue(photos)
      {
        if photos[i] {
          images := Add(images, k, 1);
          sent := sent + 1;
        }
      }
    }

    /** `handle_inbound`, with no other worker in between. */
    method HandleInbound(m: Message, e: Env)
      modifies this
      ensures stored == Handled(old(State()), m, e).stored && alerted == Handled(old(State()), m, e).alerted
      ensures charged == Handled(old(State()), m, e).charged && tried == Handled(old(State()), m, e).tried
      ensures accepted == Handled(old(State()), m, e).accepted && replied == Handled(old(State()), m, e).replied
      ensures images == Handled(old(State()), m, e).images && flagged == Handled(old(State()), m, e).flagged
    {
      if !e.active || stored[m.key] > 0 {
        return;
      }
      HandleNew(m, e);
    }

    /** A message that was not stored before. */
    method HandleNew(m: Message, e: Env)
      modifies this
      ensures stored == Add(old(stored), m.key, 1)
      ensures alerted == Add(old(alerted), m.key, if e.kept > 0 && e.awaitingPayment then 1 else 0)
      ensures charged == Add(old(charged), m.key, Charges(EndingOf(m, e)))
      ensures tried == Add(old(tried), m.key, Offers(EndingOf(m, e)))
      ensures accepted == Add(old(accepted), m.key, Texts(EndingOf(m, e)))
      ensures replied == Add(old(replied), m.key, Texts(EndingOf(m, e)))
      ensures images == Add(old(images), m.key, Pictures(EndingOf(m, e)))
      ensures flagged == Add(old(flagged), m.key, Marks(m, e))
    {
      stored := Add(stored, m.key, 1);
      var receipt := e.kept > 0 && e.awaitingPayment;
      if receipt {
        alerted := Add(alerted, m.key, 1);
      }
      Respond(m, e, receipt);
    }

    /** Everything after the customer's message is safely stored. */
    method Respond(m: Message, e: Env, receipt: bool)
      requires receipt == (e.kept > 0 && e.awaitingPayment)
      modifies this`charged, this`tried, this`accepted, this`replied, this`images, this`flagged
      ensures charged == Add(old(charged), m.key, Charges(EndingOf(m, e)))
      ensures tried == Add(old(tried), m.key, Offers(EndingOf(m, e)))
      ensures accepted == Add(old(accepted), m.key, Texts(EndingOf(m, e)))
      ensures replied == Add(old(replied), m.key, Texts(EndingOf(m, e)))
      ensures images == Add(old(images), m.key, Pictures(EndingOf(m, e)))
      ensures flagged == Add(old(flagged), m.key, Marks(m, e))
    {
      var goOn := Triage(m, e, receipt);
      if goOn {
        assert EndingOf(m, e) == Attempt(e);
        Answer(m.key, e);
        AddTwice(old(flagged), m.key, VoiceMark(m), AttemptMarks(Attempt(e)));
      }
    }

    /** Whether the assistant is to answer; if not, the seller may be asked to. */
    method Triage(m: Message, e: Env, receipt: bool) returns (goOn: bool)
      requires receipt == (e.kept > 0 && e.awaitingPayment)
      modifies this`flagged
      ensures goOn == !(EndingOf(m, e).Told? || EndingOf(m, e).Quiet?)
      ensures flagged == Add(old(flagged), m.key, if goOn then VoiceMark(m) else Marks(m, e))
    {
      goOn := false;
      if m.kind == VOICE {
        NeedsSeller(m.key);
        if !m.hasText {
          return;
        }
      } else if m.kind != TEXT && !m.hasText {
        NeedsSeller(m.key);
        return;
      }
      if e.manual || !e.autoReply {
        if !receipt || m.hasText {
          NeedsSeller(m.key);
        }
        return;
      }
      if !m.hasText {
        if e.kept > 0 && !receipt {
          NeedsSeller(m.key);
        }
        return;
      }
      goOn := true;
    }

    /** The part that is charged for. */
    method Answer(k: Key, e: Env)
      modifies this`charged, this`tried, this`accepted, this`replied, this`images, this`flagged
      ensures charged == Add(old(charged), k, 1)
      ensures tried == Add(old(tried), k, Offers(Attempt(e)))
      ensures accepted == Add(old(accepted), k, Texts(Attempt(e)))
      ensures replied == Add(old(replied), k, Texts(Attempt(e)))
      ensures images == Add(old(images), k, Pictures(Attempt(e)))
      ensures flagged == Add(old(flagged), k, AttemptMarks(Attempt(e)))
    {
      charged := Add(charged, k, 1);
      var sent := false;
      if e.withinQuota && e.generated.Some? {
        sent := SendText(k, e.generated.value.hasText, e.accepts);
      }
      if !sent {
        NeedsSeller(k);
        return;
      }
      var taken := SendPictures(k, e.generated.value);
      if e.generated.value.wantsSeller && (e.generated.value.hasText || taken > 0) {
        NeedsSeller(k);
      }
    }

    method SendPictures(k: Key, reply: Reply) returns (taken: nat)
      modifies this`images
      ensures taken == Pictures(Answered(reply))
      ensures images == Add(old(images), k, taken)
    {
      taken := SendPhotos(k, reply.photos);
      AddTwice(old(images), k, CountTrue(reply.photos), Taken(reply.qr));
      if reply.qr == Some(true) {
        images := Add(images, k, 1);
        taken := taken + 1;
      }
    }

    /** Nothing is recorded that the platform refused. */
    method SendText(k: Key, hasText: bool, accepts: bool) returns (ok: bool)
      modifies this`tried, this`accepted, this`replied
      ensures ok == (hasText ==> accepts)
      ensures tried == Add(old(tried), k, if hasText then 1 else 0)
      ensures accepted == Add(old(accepted), k, if hasText && accepts then 1 else 0)
      ensures replied == Add(old(replied), k, if hasText && accepts then 1 else 0)
    {
      ok := true;
      if hasText {
        tried := Add(tried, k, 1);
        if accepts {
          accepted := Add(accepted, k, 1);
          replied := Add(replied, k, 1);
        } else {
          ok := false;
        }
      }
    }
  }

  lemma AddNothing(bag: multiset<Key>, k: Key, n: nat)
    ensures Add(bag, k, n) == bag <==> n == 0
  {
    assert Add(bag, k, n)[k] == bag[k] + n;
  }

  ghost predicate Unnoticed(before: Db, after: Db)
  {
    && after.flagged == before.flagged && after.alerted == before.alerted
    && after.replied == before.replied && after.images == before.images
  }

  ghost predicate Silent(m: Message, e: Env)
  {
    && m.kind != VOICE && (m.kind == OTHER ==> m.hasText)
    && !e.manual && e.autoReply && !(e.kept > 0 && e.awaitingPayment)
    && if m.hasText then e.withinQuota && e.generated.Some? && NothingArrives(e.generated.value) else e.kept == 0
  }

  ghost predicate NothingArrives(reply: Reply)
  {
    !reply.hasText && true !in reply.photos && reply.qr != Some(true)
  }

  lemma {:induction false} NoneCounted(bs: seq<bool>)
    ensures CountTrue(bs) == 0 <==> true !in bs
    decreases bs
  {
    if bs != [] {
      NoneCounted(bs[1..]);
      assert bs == [bs[0]] + bs[1..];
    }
  }

  /** A call that neither raises nor dies leaves no trace for anyone, neither an
      alert, nor a mark, nor anything sent, in exactly two ways: the message had
      no words and nothing that could be kept, or the assistant answered it with
      nothing that arrived. */
  lemma LeftSilent(db: Db, m: Message, e: Env)
    requires e.active && db.stored[m.key] == 0
    ensures Unnoticed(db, Handled(db, m, e)) <==> Silent(m, e)
  {
    var ending := EndingOf(m, e);
    AddNothing(db.flagged, m.key, Marks(m, e));
    AddNothing(db.alerted, m.key, if e.kept > 0 && e.awaitingPayment then 1 else 0);
    AddNothing(db.replied, m.key, Texts(ending));
    AddNothing(db.images, m.key, Pictures(ending));
    if ending.Answered? {
      NoneCounted(ending.reply.photos);
    }
  }

  // ---- What one call leaves, condition by condition -------------------------

  /** How many of the images arrive. */
  lemma {:induction false} CountTrueIs(bs: seq<bool>)
    ensures CountTrue(bs) == |set i | 0 <= i < |bs| && bs[i]|
    decreases bs
  {
    var all := set i | 0 <= i < |bs| && bs[i];
    if bs != [] {
      var rest := bs[..|bs| - 1];
      CountTrueIs(rest);
      CountAppend(rest, bs[|bs| - 1]);
      assert bs == rest + [bs[|bs| - 1]];
      var some := set i | 0 <= i < |rest| && rest[i];
      assert all == if bs[|bs| - 1] then some + {|rest|} else some;
    }
  }

  /** The assistant is asked: there are words, it is its turn, and it may reply. */
  ghost predicate Asks(m: Message, e: Env)
  {
    m.hasText && !e.manual && e.autoReply
  }

  ghost predicate Writes(m: Message, e: Env)
  {
    Asks(m, e) && e.withinQuota && e.generated.Some?
  }

  /** Its text, if it wrote one, is taken. */
  ghost predicate GetsThrough(m: Message, e: Env)
  {
    Writes(m, e) && (e.generated.value.hasText ==> e.accepts)
  }

  ghost function Bit(b: bool): nat {
    if b then 1 else 0
  }

  /** Something kept while an order awaits payment. */
  ghost predicate LooksPaid(e: Env)
  {
    e.kept > 0 && e.awaitingPayment
  }

  /** A message stored for the first time: what is committed and sent for it. A
      receipt is queued for reading; a reply is charged for exactly when it is
      asked for, and its text offered exactly when there is one within the day's
      limit. */
  lemma HandledCounts(db: Db, m: Message, e: Env)
    requires e.active && db.stored[m.key] == 0
    ensures var t := Handled(db, m, e);
            && t.stored == db.stored[m.key := 1]
            && t.alerted[m.key] == db.alerted[m.key] + Bit(LooksPaid(e))
            && t.charged[m.key] == db.charged[m.key] + Bit(Asks(m, e))
            && t.tried[m.key] == db.tried[m.key] + Bit(Writes(m, e) && e.generated.value.hasText)
            && t.accepted[m.key] == db.accepted[m.key] + Bit(GetsThrough(m, e) && e.generated.value.hasText)
            && t.replied[m.key] == db.replied[m.key] + Bit(GetsThrough(m, e) && e.generated.value.hasText)
            && t.images[m.key] == db.images[m.key]
               + if GetsThrough(m, e)
                 then CountTrue(e.generated.value.photos) + Bit(e.generated.value.qr == Some(true)) else 0
  {
  }

  /** The seller is asked once for what cannot be heard or seen, and once more
      for what the assistant may not answer, unless it is only a receipt; for a
      photo that is not one; for a reply that could not be given; and for one
      that promised the seller and arrived at least in part. */
  lemma HandledMarks(db: Db, m: Message, e: Env)
    requires e.active && db.stored[m.key] == 0
    ensures var unheard := m.kind != TEXT && !m.hasText;
            Handled(db, m, e).flagged[m.key] == db.flagged[m.key]
              + Bit(m.kind == VOICE || (m.kind == OTHER && !m.hasText))
              + Bit(!unheard && (e.manual || !e.autoReply) && (m.hasText || !LooksPaid(e)))
              + Bit(!unheard && !e.manual && e.autoReply && !m.hasText && e.kept > 0 && !LooksPaid(e))
              + Bit(Asks(m, e) && !GetsThrough(m, e))
              + Bit(GetsThrough(m, e) && e.generated.value.wantsSeller
                    && (e.generated.value.hasText || e.generated.value.qr == Some(true)
                        || exists i :: 0 <= i < |e.generated.value.photos| && e.generated.value.photos[i]))
  {
    if e.generated.Some? {
      NoneCounted(e.generated.value.photos);
    }
  }

  /** Every other message is left as it was, and so is everything for a message
      that was stored before or arrives on a connection that is not active. */
  lemma HandledElsewhere(db: Db, m: Message, e: Env, k: Key)
    ensures (k != m.key || !e.active || db.stored[m.key] > 0) ==> SameFor(db, Handled(db, m, e), k)
  {
  }

  /** Safe to run twice: a second delivery, whatever has changed around it, does
      nothing once the first has been handled. */
  lemma HandledTwice(db: Db, m: Message, e: Env, e': Env)
    requires e.active
    ensures Handled(db, m, e).stored[m.key] > 0
    ensures Handled(Handled(db, m, e), m, e') == Handled(db, m, e)
  {
  }

  // ---- The undisturbed call is one run of the protocol ----------------------

  /** The state of one worker's call: the database so far and its own task. */
  ghost function With(s: World, db: Db, w: WorkerId, task: Task): World {
    World(db, s.tasks[w := task])
  }

  lemma {:induction false} MarkOften(s: World, run: seq<Step>, db: Db, w: WorkerId, k: Key, n: nat)
    returns (run': seq<Step>)
    requires Legal(s, run) && End(s, run) == With(s, db, w, Task(k, STORED))
    ensures Legal(s, run') && End(s, run') == With(s, db.(flagged := Add(db.flagged, k, n)), w, Task(k, STORED))
    decreases n
  {
    run' := run;
    if n > 0 {
      Extend(s, run, Flag(w));
      run' := MarkOften(s, run + [Flag(w)], db.(flagged := Add(db.flagged, k, 1)), w, k, n - 1);
      AddTwice(db.flagged, k, 1, n - 1);
    }
  }

  lemma {:induction false} SendAll(s: World, run: seq<Step>, db: Db, w: WorkerId, task: Task, photos: seq<bool>)
    returns (run': seq<Step>)
    requires task.stage == CHARGED || task.stage == SENT
    requires Legal(s, run) && End(s, run) == With(s, db, w, task)
    ensures Legal(s, run') && End(s, run')
            == With(s, db.(images := Add(db.images, task.key, CountTrue(photos))), w, task)
    decreases photos
  {
    run' := run;
    if photos != [] {
      var n := if photos[0] then 1 else 0;
      Extend(s, run, SendImage(w, photos[0]));
      run' := SendAll(s, run + [SendImage(w, photos[0])], db.(images := Add(db.images, task.key, n)), w, task,
                      photos[1..]);
      AddTwice(db.images, task.key, n, CountTrue(photos[1..]));
    }
  }

  /** The database once a reply has been charged for and offered. */
  function Offered(db: Db, k: Key, ending: Ending): Db {
    db.(charged := Add(db.charged, k, Charges(ending)), tried := Add(db.tried, k, Offers(ending)),
        accepted := Add(db.accepted, k, Texts(ending)))
  }

  function StageAfter(ending: Ending): Stage {
    match ending
    case Told => STORED
    case Quiet => STORED
    case OverLimit => CLOSED
    case NothingWritten => CHARGED
    case Refused => CLOSED
    case Answered(reply) => if reply.hasText then SENT else CHARGED
  }

  lemma ChargeOne(s: World, run: seq<Step>, db: Db, w: WorkerId, k: Key, withinQuota: bool) returns (run': seq<Step>)
    requires Legal(s, run) && End(s, run) == With(s, db, w, Task(k, STORED))
    ensures Legal(s, run')
    ensures End(s, run') == With(s, db.(charged := Add(db.charged, k, 1)), w,
                                 Task(k, if withinQuota then CHARGED else CLOSED))
  {
    Extend(s, run, Spend(w, withinQuota));
    run' := run + [Spend(w, withinQuota)];
  }

  lemma OfferOne(s: World, run: seq<Step>, db: Db, w: WorkerId, k: Key, accepted: bool) returns (run': seq<Step>)
    requires Legal(s, run) && End(s, run) == With(s, db, w, Task(k, CHARGED))
    ensures Legal(s, run')
    ensures var n := if accepted then 1 else 0;
            End(s, run') == With(s, db.(tried := Add(db.tried, k, 1), accepted := Add(db.accepted, k, n)), w,
                                 Task(k, if accepted then SENT else CLOSED))
  {
    Extend(s, run, Send(w, accepted));
    run' := run + [Send(w, accepted)];
  }

  lemma ChargeAndOffer(s: World, run: seq<Step>, db: Db, w: WorkerId, k: Key, ending: Ending) returns (run': seq<Step>)
    requires Legal(s, run) && End(s, run) == With(s, db, w, Task(k, STORED))
    ensures Legal(s, run') && End(s, run') == With(s, Offered(db, k, ending), w, Task(k, StageAfter(ending)))
  {
    run' := run;
    if Charges(ending) == 1 {
      run' := ChargeOne(s, run', db, w, k, !ending.OverLimit?);
      if Offers(ending) == 1 {
        run' := OfferOne(s, run', db.(charged := Add(db.charged, k, 1)), w, k, ending.Answered?);
      }
    }
  }

  /** From the stored message, marked as it will be, to the end of the call. */
  lemma Close(s: World, run: seq<Step>, db: Db, w: WorkerId, k: Key, ending: Ending) returns (run': seq<Step>)
    requires w !in s.tasks
    requires Legal(s, run) && End(s, run) == With(s, db, w, Task(k, STORED))
    ensures Legal(s, run')
    ensures End(s, run') == World(
      Offered(db, k, ending).(replied := Add(db.replied, k, Texts(ending)),
                              images := Add(db.images, k, Pictures(ending))),
      s.tasks)
  {
    run' := ChargeAndOffer(s, run, db, w, k, ending);
    var task := Task(k, StageAfter(ending));
    if ending.Answered? {
      var pictures := Images(ending.reply);
      run' := SendAll(s, run', Offered(db, k, ending), w, task, pictures);
    }
    var last := if Texts(ending) == 1 then Record(w) else Leave(w);
    assert s.tasks[w := task] - {w} == s.tasks;
    Extend(s, run', last);
    run' := run' + [last];
  }

  function Images(reply: Reply): (pictures: seq<bool>)
    ensures CountTrue(pictures) == Pictures(Answered(reply))
  {
    if reply.qr.Some? then
      CountAppend(reply.photos, reply.qr.value);
      reply.photos + [reply.qr.value]
    else reply.photos
  }

  lemma {:induction false} CountAppend(bs: seq<bool>, b: bool)
    ensures CountTrue(bs + [b]) == CountTrue(bs) + if b then 1 else 0
    decreases bs
  {
    if bs == [] {
      assert bs + [b] == [b];
    } else {
      assert (bs + [b])[1..] == bs[1..] + [b];
      CountAppend(bs[1..], b);
    }
  }

  /** Whatever the environment does, an undisturbed call leaves the database as
      some run of the protocol's steps by one worker would. */
  lemma HandledIsARun(s: World, w: WorkerId, m: Message, e: Env) returns (run: seq<Step>)
    requires w !in s.tasks
    ensures Legal(s, run) && End(s, run) == World(Handled(s.db, m, e), s.tasks)
  {
    run := [];
    if e.active && s.db.stored[m.key] == 0 {
      var db := s.db.(stored := Add(s.db.stored, m.key, 1));
      Extend(s, [], Look(w, m.key));
      Extend(s, [] + [Look(w, m.key)], Insert(w));
      run := [] + [Look(w, m.key)] + [Insert(w)];
      if e.kept > 0 && e.awaitingPayment {
        Extend(s, run, Alert(w));
        run := run + [Alert(w)];
        db := db.(alerted := Add(db.alerted, m.key, 1));
      }
      assert End(s, run) == With(s, db, w, Task(m.key, STORED));
      run := MarkOften(s, run, db, w, m.key, Marks(m, e));
      run := Close(s, run, db.(flagged := Add(db.flagged, m.key, Marks(m, e))), w, m.key, EndingOf(m, e));
    }
  }
}
