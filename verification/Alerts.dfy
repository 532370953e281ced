/** Low-stock episodes: one alert and one notification from the moment a variant
    runs low until it no longer is. */
module Alerts {
  import opened Listings
  import opened Wrappers

  type VariantId = nat
  type AlertId = nat

  /** What an evaluation reads of a variant and its product. */
  datatype Facts = Facts(productActive: bool, active: bool, stock: int, threshold: int)

  datatype Alert = Alert(variant: VariantId, stock: int, threshold: int, open: bool)

  /** The alerts, and the alerts a notification was queued for, oldest first. */
  datatype Table = Table(alerts: map<AlertId, Alert>, notices: seq<AlertId>, next: AlertId)

  const EMPTY := Table(map[], [], 0)

  predicate Low(f: Facts) {
    f.productActive && f.active && f.stock <= f.threshold
  }

  ghost predicate OpenAlert(t: Table, a: AlertId, v: VariantId)
  {
    a in t.alerts && t.alerts[a].open && t.alerts[a].variant == v
  }

  ghost predicate HasOpen(t: Table, v: VariantId)
  {
    exists a :: OpenAlert(t, a, v)
  }

  ghost function OpenFor(t: Table, v: VariantId): Option<AlertId> {
    if a :| OpenAlert(t, a, v) then Some(a) else None
  }

  function Noted(a: Alert, f: Facts): Alert {
    if Low(f) then a.(stock := f.stock, threshold := f.threshold) else a.(stock := f.stock, open := false)
  }

  function Raised(t: Table, v: VariantId, f: Facts): Table {
    Table(t.alerts[t.next := Alert(v, f.stock, f.threshold, true)], t.notices + [t.next], t.next + 1)
  }

  /** `evaluate_low_stock` */
  ghost function Evaluated(t: Table, v: VariantId, f: Facts): Table {
    match OpenFor(t, v)
    case Some(a) => if a in t.alerts then t.(alerts := t.alerts[a := Noted(t.alerts[a], f)]) else t
    case None => if Low(f) then Raised(t, v, f) else t
  }

  /** At most one open alert for a variant, and exactly one notification for
      every alert there has been. */
  ghost predicate Valid(t: Table)
  {
    && (forall a, b, v :: OpenAlert(t, a, v) && OpenAlert(t, b, v) ==> a == b)
    && (forall a <- t.alerts :: a in t.notices)
    && (forall a <- t.notices :: a < t.next)
    && (forall i, j | 0 <= i < j < |t.notices| :: t.notices[i] != t.notices[j])
  }

  /** One evaluation opens an alert for its variant exactly when the variant is
      low, and touches no other variant's. */
  lemma EvaluateSettles(t: Table, v: VariantId, f: Facts)
    requires Valid(t)
    ensures var u := Evaluated(t, v, f);
            && Valid(u)
            && (HasOpen(u, v) <==> Low(f))
            && (forall w, a :: w != v ==> (OpenAlert(u, a, w) <==> OpenAlert(t, a, w)))
            && u.notices == if Low(f) && !HasOpen(t, v) then t.notices + [t.next] else t.notices
  {
    var u := Evaluated(t, v, f);
    match OpenFor(t, v)
    case Some(a) =>
      assert OpenAlert(t, a, v);
      forall b, w
        ensures OpenAlert(u, b, w) <==> OpenAlert(t, b, w) && (w == v ==> Low(f))
      {
        assert OpenAlert(t, b, v) ==> b == a;
      }
      assert Low(f) ==> OpenAlert(u, a, v);
    case None =>
      assert t.next !in t.notices && t.next !in t.alerts;
      forall b, w
        ensures OpenAlert(u, b, w) <==> OpenAlert(t, b, w) || (Low(f) && b == t.next && w == v)
      {
      }
      assert Low(f) ==> OpenAlert(u, t.next, v);
  }

  /** What it writes: an open alert takes the variant's stock, and its threshold
      while it stays open; a variant newly low gets an alert and a notification;
      and nothing else changes. */
  lemma EvaluateIs(t: Table, v: VariantId, f: Facts)
    requires Valid(t)
    ensures var u, low := Evaluated(t, v, f), f.productActive && f.active && f.stock <= f.threshold;
            && (forall a | OpenAlert(t, a, v) ::
                  && u.alerts
                     == t.alerts[a := Alert(v, f.stock, if low then f.threshold else t.alerts[a].threshold, low)]
                  && u.notices == t.notices && u.next == t.next)
            && (!HasOpen(t, v) && low ==>
                  && u.alerts == t.alerts[t.next := Alert(v, f.stock, f.threshold, true)]
                  && u.notices == t.notices + [t.next] && u.next == t.next + 1)
            && (!HasOpen(t, v) && !low ==> u == t)
  {
    if a :| OpenAlert(t, a, v) {
      var found := OpenFor(t, v);
      assert found.Some? && OpenAlert(t, found.value, v);
    }
  }

  // ---- Scanning -------------------------------------------------------------

  ghost function ScanFirst(t: Table, facts: map<VariantId, Facts>, ids: seq<VariantId>, n: nat): Table
    requires n <= |ids| && forall v <- ids :: v in facts
  {
    if n == 0 then t
    else
      assert ids[n - 1] in ids;
      Evaluated(ScanFirst(t, facts, ids, n - 1), ids[n - 1], facts[ids[n - 1]])
  }

  /** The variants a scan newly finds low. */
  ghost function NewlyLow(t: Table, facts: map<VariantId, Facts>): set<VariantId> {
    set v <- facts | Low(facts[v]) && !HasOpen(t, v)
  }

  ghost function NewlyLowAmong(t: Table, facts: map<VariantId, Facts>, ids: seq<VariantId>, n: nat): set<VariantId>
    requires n <= |ids|
  {
    set v <- NewlyLow(t, facts) | Among(ids, n, v)
  }

  ghost predicate Settled(t: Table, u: Table, facts: map<VariantId, Facts>, ids: seq<VariantId>, n: nat, v: VariantId)
    requires n <= |ids|
  {
    HasOpen(u, v) <==> if Among(ids, n, v) && v in facts then Low(facts[v]) else HasOpen(t, v)
  }

  ghost predicate AllSettled(t: Table, u: Table, facts: map<VariantId, Facts>, ids: seq<VariantId>, n: nat)
    requires n <= |ids|
  {
    forall v :: Settled(t, u, facts, ids, n, v)
  }

  /** One more variant scanned. */
  lemma ScanNext(t: Table, before: Table, facts: map<VariantId, Facts>, ids: seq<VariantId>, n: nat)
    requires 0 < n <= |ids| && Enumerates(ids, facts.Keys) && Valid(before) && ids[n - 1] in facts
    requires AllSettled(t, before, facts, ids, n - 1)
    ensures AllSettled(t, Evaluated(before, ids[n - 1], facts[ids[n - 1]]), facts, ids, n)
  {
    var last := ids[n - 1];
    var u := Evaluated(before, last, facts[last]);
    EvaluateSettles(before, last, facts[last]);
    forall v
      ensures Settled(t, u, facts, ids, n, v)
    {
      assert Settled(t, before, facts, ids, n - 1, v);
    }
  }

  lemma NewlyLowNext(t: Table, facts: map<VariantId, Facts>, ids: seq<VariantId>, n: nat)
    requires 0 < n <= |ids| && Enumerates(ids, facts.Keys)
    ensures |NewlyLowAmong(t, facts, ids, n)|
         == |NewlyLowAmong(t, facts, ids, n - 1)| + if ids[n - 1] in NewlyLow(t, facts) then 1 else 0
  {
    var last := ids[n - 1];
    AmongIs(ids, n - 1, last);
    var some := NewlyLowAmong(t, facts, ids, n - 1);
    if last in NewlyLow(t, facts) {
      assert NewlyLowAmong(t, facts, ids, n) == some + {last};
    } else {
      assert NewlyLowAmong(t, facts, ids, n) == some;
    }
  }

  lemma {:induction false} ScanFirstSettles(t: Table, facts: map<VariantId, Facts>, ids: seq<VariantId>, n: nat)
    requires Valid(t) && n <= |ids| && Enumerates(ids, facts.Keys)
    ensures var u := ScanFirst(t, facts, ids, n);
            && Valid(u)
            && AllSettled(t, u, facts, ids, n)
            && |u.notices| == |t.notices| + |NewlyLowAmong(t, facts, ids, n)|
  {
    if n == 0 {
      assert NewlyLowAmong(t, facts, ids, n) == {};
    } else {
      ScanFirstSettles(t, facts, ids, n - 1);
      var before := ScanFirst(t, facts, ids, n - 1);
      assert ids[n - 1] in ids;
      EvaluateSettles(before, ids[n - 1], facts[ids[n - 1]]);
      ScanNext(t, before, facts, ids, n);
      NewlyLowNext(t, facts, ids, n);
      AmongIs(ids, n - 1, ids[n - 1]);
      assert Settled(t, before, facts, ids, n - 1, ids[n - 1]);
    }
  }

  /** After a scan a variant has an open alert exactly when it is low, and as
      many notifications were queued as variants were newly low. */
  lemma ScanSettles(t: Table, facts: map<VariantId, Facts>, ids: seq<VariantId>)
    requires Valid(t) && Enumerates(ids, facts.Keys)
    ensures var u := ScanFirst(t, facts, ids, |ids|);
            && Valid(u)
            && (forall v <- facts :: HasOpen(u, v) <==> Low(facts[v]))
            && |u.notices| == |t.notices| + |NewlyLow(t, facts)|
  {
    ScanFirstSettles(t, facts, ids, |ids|);
    var u := ScanFirst(t, facts, ids, |ids|);
    forall v | v in facts
      ensures Among(ids, |ids|, v) && (HasOpen(u, v) <==> Low(facts[v]))
    {
      AmongIs(ids, |ids|, v);
      assert v in ids;
      assert Settled(t, u, facts, ids, |ids|, v);
    }
    assert NewlyLowAmong(t, facts, ids, |ids|) == NewlyLow(t, facts);
  }

  // ---- The alert table ------------------------------------------------------

  class AlertTable {
    var alerts: map<AlertId, Alert>
    var notices: seq<AlertId>
    var next: AlertId

    function State(): Table
      reads this
    {
      Table(alerts, notices, next)
    }

    constructor ()
      ensures State() == EMPTY
    {
      alerts, notices, next := map[], [], 0;
    }

    /** The query for the variant's open alert. */
    method FindOpen(v: VariantId) returns (found: Option<AlertId>)
      requires Valid(State())
      ensures found == OpenFor(State(), v)
      ensures found.Some? <==> HasOpen(State(), v)
    {
      var open := set a <- alerts | alerts[a].open && alerts[a].variant == v;
      if open == {} {
        assert forall a :: OpenAlert(State(), a, v) ==> a in open;
        return None;
      }
      var a :| a in open;
      assert OpenAlert(State(), a, v);
      return Some(a);
    }

    method EvaluateLowStock(v: VariantId, f: Facts) returns (alert: Option<AlertId>)
      requires Valid(State())
      modifies this
      ensures State() == Evaluated(old(State()), v, f)
      ensures Valid(State())
      ensures alert.Some? <==> Low(f)
      ensures |notices| == |old(notices)| + if Low(f) && !HasOpen(old(State()), v) then 1 else 0
    {
      EvaluateSettles(State(), v, f);
      var openAlert := FindOpen(v);
      var isLow := f.productActive && f.active && f.stock <= f.threshold;
      if !isLow {
        if openAlert.Some? {
          var a := openAlert.value;
          alerts := alerts[a := alerts[a].(stock := f.stock, open := false)];
        }
        return None;
      }
      if openAlert.Some? {
        var a := openAlert.value;
        alerts := alerts[a := alerts[a].(stock := f.stock, threshold := f.threshold)];
        return openAlert;
      }
      alert := Some(next);
      alerts := alerts[next := Alert(v, f.stock, f.threshold, true)];
      notices := notices + [next];
      next := next + 1;
    }

    /** `scan_low_stock`, over the shop's variants as the query lists them. */
    method ScanLowStock(facts: map<VariantId, Facts>, ids: seq<VariantId>) returns (raised: nat)
      requires Valid(State()) && Enumerates(ids, facts.Keys)
      modifies this
      ensures State() == ScanFirst(old(State()), facts, ids, |ids|)
      ensures raised == |NewlyLow(old(State()), facts)|
    {
      ghost var t := State();
      raised := 0;
      var i := 0;
      while i < |ids|
        invariant 0 <= i <= |ids|
        invariant State() == ScanFirst(t, facts, ids, i)
        invariant Valid(State()) && |notices| == |t.notices| + raised
      {
        assert ids[i] in ids;
        var before := FindOpen(ids[i]);
        var alert := EvaluateLowStock(ids[i], facts[ids[i]]);
        if alert.Some? && before.None? {
          raised := raised + 1;
        }
        i := i + 1;
      }
      ScanSettles(t, facts, ids);
    }

    /** Deleting a variant deletes its alerts. */
    method RemoveVariant(v: VariantId)
      modifies this
      ensures State() == Removed(old(State()), v)
    {
      alerts := map a <- alerts | alerts[a].variant != v :: alerts[a];
    }
  }

  function Removed(t: Table, v: VariantId): Table {
    t.(alerts := map a <- t.alerts | t.alerts[a].variant != v :: t.alerts[a])
  }

  // ---- Any run --------------------------------------------------------------

  datatype Event =
    | Evaluate(variant: VariantId, facts: Facts)
    | Scan(all: map<VariantId, Facts>, ids: seq<VariantId>)
    | Remove(variant: VariantId)

  ghost predicate Possible(e: Event)
  {
    e.Scan? ==> Enumerates(e.ids, e.all.Keys)
  }

  ghost function After(t: Table, e: Event): Table
    requires Possible(e)
  {
    match e
    case Evaluate(v, f) => Evaluated(t, v, f)
    case Scan(all, ids) => ScanFirst(t, all, ids, |ids|)
    case Remove(v) => Removed(t, v)
  }

  ghost function End(t: Table, run: seq<Event>): Table
    requires forall e <- run :: Possible(e)
    decreases |run|
  {
    if run == [] then t else End(After(t, run[0]), run[1..])
  }

  lemma RemovedValid(t: Table, v: VariantId)
    requires Valid(t)
    ensures Valid(Removed(t, v))
  {
    forall a, w
      ensures OpenAlert(Removed(t, v), a, w) ==> OpenAlert(t, a, w)
    {
    }
  }

  /** In every run, a variant has at most one open alert and every alert raised
      has had exactly one notification. */
  lemma {:induction false} RunsStayValid(t: Table, run: seq<Event>)
    requires Valid(t) && forall e <- run :: Possible(e)
    ensures Valid(End(t, run))
    decreases |run|
  {
    if run != [] {
      assert run[0] in run;
      match run[0] {
        case Evaluate(v, f) => EvaluateSettles(t, v, f);
        case Scan(all, ids) => ScanSettles(t, all, ids);
        case Remove(v) => RemovedValid(t, v);
      }
      RunsStayValid(After(t, run[0]), run[1..]);
    }
  }
}
