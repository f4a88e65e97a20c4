/**
  The alerter as the source runs it (domains/alerting/engine.go, incident.go): one
  sequential loop over an incidents table and a firing flag per rule, updated in place.
  Its history of events makes every result about runs a result about this object.
 */
module AlertEngine {
  import opened Text
  import opened Topology
  import opened Alerting
  import opened AlertingBooks

  class Engine {
    const gate: real
    const topo: Topo
    var rows: seq<Incident>
    var pages: seq<nat>
    /** alert_state: the rules that were firing at their last evaluation. */
    var firing: set<string>
    ghost var log: Log
    ghost var history: seq<Event>

    ghost function View(): State
      reads this
    {
      State(rows, pages, log)
    }

    /** The table is what the recorded events make of an empty one. */
    ghost predicate Valid()
      reads this
    {
      LegalRun(history, gate, topo) && View() == Run(history, gate)
    }

    constructor (gate: real, topo: Topo)
      ensures Valid() && this.gate == gate && this.topo == topo
      ensures rows == [] && pages == [] && firing == {} && history == []
    {
      this.gate := gate;
      this.topo := topo;
      rows, pages, firing := [], [], {};
      log, history := [], [];
    }

    /** `neighborIncidentFP`: the fingerprint of an open incident of a 1-hop neighbour. */
    method NeighborIncident(tenant: string, service: string) returns (fp: Option<Fingerprint>)
      ensures forall g: Signal :: g.tenant == tenant && g.service == service && g.proxy == fp ==> LookupOk(View(), g, topo)
    {
      if service == "*" {
        return None;
      }
      var neighbors := Neighbors(topo(tenant), service);
      for i := 0 to |rows|
        invariant forall k :: 0 <= k < i && rows[k].open && rows[k].fp.tenant == tenant
                    ==> rows[k].fp.service !in neighbors
      {
        if rows[i].open && rows[i].fp.tenant == tenant && rows[i].fp.service in neighbors {
          assert HasOpen(rows, rows[i].fp);
          return Some(rows[i].fp);
        }
      }
      return None;
    }

    /** INSERT ... ON CONFLICT (fingerprint) WHERE open DO UPDATE. */
    method Upsert(g: Signal) returns (id: nat)
      modifies this`rows
      ensures id == (if OpenRow(old(rows), Target(g)).Some? then OpenRow(old(rows), Target(g)).value else |old(rows)|)
      ensures rows == if id < |old(rows)| then old(rows)[id := Merged(old(rows)[id], g)] else old(rows) + [NewRow(g)]
    {
      var fp := if g.proxy.Some? then g.proxy.value else Fingerprint(g.tenant, g.service);
      var conf := Calibrated(g);
      var hit := OpenRow(rows, fp);
      if hit.Some? {
        id := hit.value;
        var row := rows[id];
        rows := rows[id := row.(
          signals := row.signals + 1,
          confidence := Max(row.confidence, conf),
          deploy := if row.deploy.Some? then row.deploy else g.deploy,
          rules := if g.rule in row.rules then row.rules else row.rules + [g.rule])];
      } else {
        id := |rows|;
        rows := rows + [Incident(fp, g.tenant, g.service, Severity(conf), conf, 1, g.deploy, [g.rule], true, false)];
      }
    }

    /** The two updates after the upsert: severity tracks the merged confidence; page once,
        and only at or above the gate. */
    method Settle(id: nat)
      requires id < |rows|
      modifies this`rows, this`pages
      ensures rows == old(rows)[id := Settled(old(rows)[id], gate)]
      ensures Labels(rows[id].severity, rows[id].confidence) && rows[id].confidence == old(rows)[id].confidence
      ensures pages == if !old(rows)[id].paged && old(rows)[id].confidence >= gate then old(pages) + [id] else old(pages)
    {
      var merged, alreadyPaged := rows[id].confidence, rows[id].paged;
      rows := rows[id := rows[id].(severity := Severity(merged))];
      if !alreadyPaged && merged >= gate {
        pages := pages + [id];
        rows := rows[id := rows[id].(paged := true)];
      }
    }

    /** `correlate`. The out-parameter says which event this was, the neighbour lookup's
        answer included. */
    method Correlate(signal: Signal) returns (g: Signal)
      requires Valid()
      modifies this`rows, this`pages, this`log, this`history
      ensures Valid()
      ensures g == signal.(proxy := g.proxy) && LookupOk(old(View()), g, topo)
      ensures View() == Correlated(old(View()), g, gate)
      ensures history == old(history) + [Fire(g)]
    {
      var proxy := NeighborIncident(signal.tenant, signal.service);
      g := signal.(proxy := proxy);
      var id := Upsert(g);
      ghost var upserted := rows;
      Settle(id);
      InTwoParts(old(View()), g, gate, id, upserted, rows, pages);
      log := log + [(id, g)];
      history := history + [Fire(g)];
      HistoryGrows(old(history), Fire(g), gate, topo);
    }

    /** `resolveOpenIncident`: closes the open incident of the rule's own service. */
    method ResolveOpenIncident(tenant: string, service: string)
      requires Valid()
      modifies this`rows, this`history
      ensures Valid()
      ensures View() == Step(old(View()), Resolve(tenant, service), gate)
      ensures history == old(history) + [Resolve(tenant, service)]
    {
      rows := Alerting.Closed(rows, Fingerprint(tenant, service));
      history := history + [Resolve(tenant, service)];
      HistoryGrows(old(history), Resolve(tenant, service), gate, topo);
    }

    /** `evalRule` after the evaluation itself: correlate on every firing cycle, resolve on
        the falling edge only, and remember the new flag. */
    method EvalRule(signal: Signal, nowFiring: bool) returns (events: seq<Event>)
      requires Valid()
      modifies this
      ensures Valid() && history == old(history) + events
      ensures firing == if nowFiring then old(firing) + {signal.rule} else old(firing) - {signal.rule}
      ensures nowFiring ==> |events| == 1 && events[0].Fire? && events[0].signal == signal.(proxy := events[0].signal.proxy)
      ensures !nowFiring ==>
        events == if signal.rule in old(firing) then [Resolve(signal.tenant, signal.service)] else []
    {
      var prev := signal.rule in firing;
      events := [];
      if nowFiring {
        var g := Correlate(signal);
        events := [Fire(g)];
      }
      if prev != nowFiring {
        if nowFiring {
          firing := firing + {signal.rule};
        } else {
          ResolveOpenIncident(signal.tenant, signal.service);
          events := [Resolve(signal.tenant, signal.service)];
          firing := firing - {signal.rule};
        }
      }
    }

    /** Whatever was evaluated so far: open incidents are independent, and the books balance. */
    lemma AlwaysConsistent()
      requires Valid() && PlainTopo(topo)
      ensures TableInv(View(), topo) && Books(View(), gate)
      ensures TotalSignals(rows) == Fires(history)
    {
      OpenIncidentsIndependent(history, gate, topo);
      BooksBalance(history, gate);
    }
  }

  /** The upsert and the settling together are one step of the specification. */
  lemma InTwoParts(s: State, g: Signal, gate: real, id: nat, upserted: seq<Incident>, rows: seq<Incident>, pages: seq<nat>)
    requires id == (if OpenRow(s.rows, Target(g)).Some? then OpenRow(s.rows, Target(g)).value else |s.rows|)
    requires upserted == if id < |s.rows| then s.rows[id := Merged(s.rows[id], g)] else s.rows + [NewRow(g)]
    requires rows == upserted[id := Settled(upserted[id], gate)]
    requires pages == if !upserted[id].paged && upserted[id].confidence >= gate then s.pages + [id] else s.pages
    ensures State(rows, pages, s.log + [(id, g)]) == Correlated(s, g, gate)
  {
    if id < |s.rows| {
      assert rows == s.rows[id := Settled(Merged(s.rows[id], g), gate)];
    } else {
      assert rows == s.rows + [Settled(NewRow(g), gate)];
    }
  }

  lemma HistoryGrows(evs: seq<Event>, ev: Event, gate: real, topo: Topo)
    requires LegalRun(evs, gate, topo) && Legal(Run(evs, gate), ev, topo)
    ensures LegalRun(evs + [ev], gate, topo)
    ensures Run(evs + [ev], gate) == Step(Run(evs, gate), ev, gate)
  {
    var all := evs + [ev];
    assert all[..|evs|] == evs;
    forall k | 0 <= k < |all| ensures Legal(Run(all[..k], gate), all[k], topo) {
      if k < |evs| {
        assert all[..k] == evs[..k];
      }
    }
  }
}
