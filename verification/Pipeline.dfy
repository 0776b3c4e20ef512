/** From collector to panel: tick (hermes_collector.py), Relay.Once (relay.go) and Ingest (store.go) work on
shared durable state while either process may crash between any two writes, requests and responses may be
lost, repeated and delayed, and maintenance runs at any time.

Every method of `Pipeline` is one atomic step; `Run` takes any sequence of them. */
module Pipeline {
  import opened Samples
  import C = Collector
  import P = Panel

  /** Where the collector's tick stands: each phase ends with a write that survives a crash, or loses
      what was only in memory. */
  datatype Phase = Idle | Absorbed | Computed | Persisted

  /** A response of the panel to one request. */
  datatype Response = Response(offered: seq<Sample>, ids: seq<SampleId>)

  // ---------- what the steps must keep ----------

  /** The ids of a node's samples that the panel has committed. */
  ghost function Ingested(history: seq<P.Entry>, node: string): set<SampleId>
  {
    set e | e in history && e.key.node == node :: e.key.id
  }

  type Registry = map<SampleId, Sample>

  ghost predicate Known(emitted: Registry, samples: seq<Sample>)
  {
    forall s :: s in samples ==> s.id in emitted && emitted[s.id] == s
  }

  /** Everything emitted is still pending or already committed. */
  ghost predicate Accounted(emitted: Registry, outbox: seq<Sample>, ingested: set<SampleId>)
  {
    forall id :: id in emitted ==> C.Pending(outbox, id) || id in ingested
  }

  /** The panel has committed nothing but what was emitted. */
  ghost predicate Genuine(emitted: Registry, history: seq<P.Entry>, node: string)
  {
    forall e :: e in history && e.key.node == node ==> e.key.id in emitted && emitted[e.key.id].ended == e.ended
  }

  /** The samples in memory have ids of their own, and agree with what was emitted. */
  ghost predicate Drafted(emitted: Registry, drawn: nat, outbox: seq<Sample>)
  {
    && (forall s :: s in outbox ==> s.id < drawn && (s.id in emitted ==> emitted[s.id] == s))
    && (forall s, t :: s in outbox && t in outbox && s.id == t.id ==> s == t)
  }

  ghost predicate Numbered(emitted: Registry, drawn: nat)
  {
    forall id :: id in emitted ==> id < drawn
  }

  ghost predicate AllAnswered(responses: set<Response>, ingested: set<SampleId>)
  {
    forall r, id :: r in responses && id in r.ids ==> id in ingested
  }

  ghost predicate AllKnown(emitted: Registry, requests: set<seq<Sample>>)
  {
    forall r :: r in requests ==> Known(emitted, r)
  }

  /** Register the samples of an outbox that has been written to disk. */
  ghost function Registered(emitted: Registry, outbox: seq<Sample>): Registry
  {
    if outbox == [] then emitted
    else Registered(emitted, outbox[..|outbox| - 1])[outbox[|outbox| - 1].id := outbox[|outbox| - 1]]
  }

  lemma {:induction false} RegisteredAgrees(emitted: Registry, drawn: nat, outbox: seq<Sample>)
    requires Drafted(emitted, drawn, outbox)
    ensures Known(Registered(emitted, outbox), outbox)
    ensures forall id :: id in emitted ==> id in Registered(emitted, outbox) && Registered(emitted, outbox)[id] == emitted[id]
    ensures forall id :: id in Registered(emitted, outbox) ==> id in emitted || C.Pending(outbox, id)
  {
    if outbox != [] {
      var front, last := outbox[..|outbox| - 1], outbox[|outbox| - 1];
      assert outbox == front + [last];
      RegisteredAgrees(emitted, drawn, front);
      forall id | id in Registered(emitted, outbox)
        ensures id in emitted || C.Pending(outbox, id)
      {
        if id !in emitted && id != last.id {
          assert C.Pending(front, id);
          var s :| s in front && s.id == id;
          assert s in outbox;
        } else if id == last.id {
          assert last in outbox;
        }
      }
    }
  }

  /** Dropping what is acknowledged leaves everything accounted for. */
  lemma AcknowledgedIsIngested(emitted: Registry, outbox: seq<Sample>, acks: set<SampleId>, ingested: set<SampleId>)
    requires Accounted(emitted, outbox, ingested) && acks <= ingested
    ensures Accounted(emitted, C.Unacknowledged(outbox, acks), ingested)
  {
    forall id | id in emitted && id !in ingested
      ensures C.Pending(C.Unacknowledged(outbox, acks), id)
    {
      var s :| s in outbox && s.id == id;
      assert s in C.Unacknowledged(outbox, acks);
    }
  }

  /** A batch that is committed extends what the panel holds by emitted samples only. */
  lemma CommitIsGenuine(emitted: Registry, history: seq<P.Entry>, ledger: P.Ledger, node: string, samples: seq<Sample>)
    requires Genuine(emitted, history, node) && Known(emitted, samples)
    ensures Genuine(emitted, history + P.Entries(node, P.Fresh(ledger, node, samples)), node)
    ensures Ingested(history, node) <= Ingested(history + P.Entries(node, P.Fresh(ledger, node, samples)), node)
  {
    var stored := P.Fresh(ledger, node, samples);
    var entries := P.Entries(node, stored);
    P.FreshIsNew(ledger, node, samples);
    forall e | e in entries
      ensures e.key.id in emitted && emitted[e.key.id].ended == e.ended
    {
      var i :| 0 <= i < |entries| && entries[i] == e;
      assert stored[i] in stored && stored[i] in samples;
    }
    forall e | e in history
      ensures e in history + entries
    {
    }
  }

  /** Another node's batch changes nothing for this one. */
  lemma OtherNodesCommit(history: seq<P.Entry>, ledger: P.Ledger, node: string, other: string, samples: seq<Sample>)
    requires node != other
    ensures Ingested(history + P.Entries(other, P.Fresh(ledger, other, samples)), node) == Ingested(history, node)
    ensures forall e :: e in history + P.Entries(other, P.Fresh(ledger, other, samples)) && e.key.node == node ==> e in history
  {
    var after := history + P.Entries(other, P.Fresh(ledger, other, samples));
    assert forall e :: e in after && e.key.node == node ==> e in history;
    assert forall e :: e in history ==> e in after;
  }

  /** Whatever the panel acknowledges is in its ledger, so it has been committed. */
  lemma AcceptedIsIngested(history: seq<P.Entry>, ledger: P.Ledger, node: string, samples: seq<Sample>, after: P.Ledger)
    requires after == P.Inserted(ledger, node, samples) && P.Backed(after, history)
    ensures forall id :: id in P.Ids(samples) ==> id in Ingested(history, node)
  {
    P.InsertedKeeps(ledger, node, samples);
    forall id | id in P.Ids(samples)
      ensures id in Ingested(history, node)
    {
      var i :| 0 <= i < |samples| && samples[i].id == id;
      assert samples[i] in samples;
      assert P.Entry(P.Key(node, id), after[P.Key(node, id)]) in history;
    }
  }

  /** New samples join the draft under ids nobody has drawn before. */
  lemma DraftGrows(emitted: Registry, drawn: nat, outbox: seq<Sample>, samples: seq<Sample>, count: nat)
    requires Drafted(emitted, drawn, outbox) && Numbered(emitted, drawn) && |samples| <= count
    requires forall i :: 0 <= i < |samples| ==> samples[i].id == drawn + i
    ensures Drafted(emitted, drawn + count, outbox + samples)
  {
    forall s | s in outbox + samples
      ensures s.id < drawn + count && (s.id in emitted ==> emitted[s.id] == s)
    {
      FromDraftOrNew(drawn, outbox, samples, s);
    }
    forall s, t | s in outbox + samples && t in outbox + samples && s.id == t.id
      ensures s == t
    {
      FromDraftOrNew(drawn, outbox, samples, s);
      FromDraftOrNew(drawn, outbox, samples, t);
    }
  }

  lemma FromDraftOrNew(drawn: nat, outbox: seq<Sample>, samples: seq<Sample>, s: Sample)
    requires s in outbox + samples && forall i :: 0 <= i < |samples| ==> samples[i].id == drawn + i
    ensures s in outbox || (drawn <= s.id < drawn + |samples| && s == samples[s.id - drawn])
  {
    if s !in outbox {
      var i :| 0 <= i < |samples| && samples[i] == s;
    }
  }

  lemma AccountedByMore(emitted: Registry, outbox: seq<Sample>, more: seq<Sample>, ingested: set<SampleId>)
    requires Accounted(emitted, outbox, ingested) && outbox <= more
    ensures Accounted(emitted, more, ingested)
  {
    forall id | id in emitted && id !in ingested
      ensures C.Pending(more, id)
    {
      var s :| s in outbox && s.id == id;
      assert s in more;
    }
  }

  /** Whatever a tick comes to, it only appends samples, under the ids it was given. */
  lemma NewIdsOnly(before: C.State, after: C.State, status: C.Status, order: seq<C.Group>, now: int, enabled: bool, source: C.Source,
                   interval: int, ids: seq<SampleId>)
    requires C.Collected(before, after, status, order, now, enabled, source, interval, ids)
    ensures before.outbox <= after.outbox
    ensures var samples := after.outbox[|before.outbox|..];
            |samples| <= |ids| && forall i :: 0 <= i < |samples| ==> samples[i].id == ids[i]
  {
    hide C.Unmeasurable, C.Demand, C.Snapshot, C.ValidRows, C.GroupGrowth, C.GroupResets, C.GroupsOf;
  }

  /** Registering the outbox once it is on disk keeps everything known, numbered, genuine and accounted for. */
  lemma KnownGrows(emitted: Registry, drawn: nat, outbox: seq<Sample>, report: seq<Sample>, requests: set<seq<Sample>>,
                   history: seq<P.Entry>, node: string, ingested: set<SampleId>)
    requires Drafted(emitted, drawn, outbox) && Numbered(emitted, drawn) && Accounted(emitted, outbox, ingested)
    requires Known(emitted, report) && AllKnown(emitted, requests) && Genuine(emitted, history, node)
    ensures var more := Registered(emitted, outbox);
            && emitted.Keys <= more.Keys
            && Known(more, outbox) && Numbered(more, drawn) && Drafted(more, drawn, outbox) && Accounted(more, outbox, ingested)
            && Known(more, report) && AllKnown(more, requests) && Genuine(more, history, node)
  {
    RegisteredAgrees(emitted, drawn, outbox);
    forall r | r in requests
      ensures Known(Registered(emitted, outbox), r)
    {
      assert Known(emitted, r);
    }
  }

  lemma KnownIsDrafted(emitted: Registry, drawn: nat, outbox: seq<Sample>)
    requires Known(emitted, outbox) && Numbered(emitted, drawn)
    ensures Drafted(emitted, drawn, outbox)
  {
  }

  /** A report carries the first 256 samples. */
  function Front(outbox: seq<Sample>): seq<Sample>
  {
    outbox[..if |outbox| > 256 then 256 else |outbox|]
  }

  /** The ids of one tick. */
  function Drawn(drawn: nat): (ids: seq<SampleId>)
    ensures |ids| == C.MAX_GROUPS && forall i :: 0 <= i < |ids| ==> ids[i] == drawn + i
  {
    seq(C.MAX_GROUPS, i => drawn + i)
  }

  // ---------- the system ----------

  class Pipeline {
    const node: string
    const collector: C.Collector
    const panel: P.Panel
    var disk: C.State
    var acks: set<SampleId>
    var report: seq<Sample>
    var phase: Phase
    /** Every request and response ever sent; either may arrive at any time, again, or never. */
    var requests: set<seq<Sample>>
    var responses: set<Response>
    /** Random ids are numbers drawn in order: none comes twice, whatever crashes. */
    var drawn: nat
    /** Every sample that was written to the durable outbox. */
    ghost var emitted: Registry

    constructor (node: string, collector: C.Collector, panel: P.Panel)
      requires collector.Valid() && collector.state.outbox == [] && collector.state.last == C.None && panel.Valid() && panel.history == []
      ensures Valid() && emitted == map[]
      ensures this.node == node && this.collector == collector && this.panel == panel
    {
      this.node, this.collector, this.panel := node, collector, panel;
      disk, acks, report, phase := collector.state, {}, [], Idle;
      requests, responses, emitted, drawn := {}, {}, map[], 0;
    }

    ghost function Committed(): set<SampleId>
      reads panel
    {
      Ingested(panel.history, node)
    }

    ghost predicate Parts()
      reads this, collector, panel
    {
      collector.Valid() && collector.Sound(disk) && panel.Valid()
    }

    /** The collector's side: nothing emitted is forgotten, on disk or in memory. */
    ghost predicate CollectorSide()
      reads this, collector, panel
    {
      && Known(emitted, disk.outbox)
      && Accounted(emitted, disk.outbox, Committed())
      && Accounted(emitted, collector.state.outbox, Committed())
      && Drafted(emitted, drawn, collector.state.outbox)
      && Numbered(emitted, drawn)
      && (phase != Computed ==> Known(emitted, collector.state.outbox))
    }

    /** The wire's side: only emitted samples travel, and only committed ones are acknowledged. */
    ghost predicate WireSide()
      reads this, panel
    {
      && Known(emitted, report)
      && AllKnown(emitted, requests)
      && AllAnswered(responses, Committed())
      && acks <= Committed()
      && Genuine(emitted, panel.history, node)
    }

    ghost predicate Valid()
      reads this, collector, panel
    {
      Parts() && CollectorSide() && WireSide()
    }

    // ---------- the collector's tick ----------

    method TickAbsorb(now: int)
      requires Valid()
      modifies `phase, collector
      ensures Valid()
      ensures old(phase) == Idle ==> phase == Absorbed && collector.state.outbox == C.Unacknowledged(old(collector.state.outbox), acks)
      ensures old(phase) != Idle ==> phase == old(phase) && collector.state == old(collector.state)
    {
      if phase == Idle {
        AcknowledgedIsIngested(emitted, collector.state.outbox, acks, Committed());
        collector.Absorb(now, acks);
        phase := Absorbed;
      }
    }

    /** The write before the quota request. */
    method TickPersistEarly()
      requires Valid()
      modifies `disk
      ensures Valid() && disk == if phase == Absorbed then collector.state else old(disk)
    {
      if phase == Absorbed {
        disk := collector.state;
      }
    }

    method TickCollect(now: int, enabled: bool, source: C.Source) returns (status: C.Status, ghost order: seq<C.Group>)
      requires Valid()
      modifies `phase, `drawn, collector
      ensures Valid() && old(drawn) <= drawn
      ensures old(phase) == Absorbed ==>
                && phase == Computed && drawn == old(drawn) + C.MAX_GROUPS
                && C.Collected(old(collector.state), collector.state, status, order, now, enabled, source, collector.interval, Drawn(old(drawn)))
      ensures old(phase) != Absorbed ==> phase == old(phase) && collector.state == old(collector.state)
    {
      hide Known, Accounted, Genuine, Drafted, AllAnswered, AllKnown, Ingested, Drawn, C.Collected, P.Panel.Valid;
      status, order := C.Stale, [];
      if phase == Absorbed {
        ghost var before := collector.state;
        var ids := Drawn(drawn);
        status, order := collector.Collect(now, enabled, source, ids);
        NewIdsOnly(before, collector.state, status, order, now, enabled, source, collector.interval, ids);
        ghost var samples := collector.state.outbox[|before.outbox|..];
        assert collector.state.outbox == before.outbox + samples;
        DraftGrows(emitted, drawn, before.outbox, samples, |ids|);
        AccountedByMore(emitted, before.outbox, collector.state.outbox, Committed());
        drawn := drawn + |ids|;
        phase := Computed;
      }
    }

    /** Write state.json: from here on the new samples are emitted. */
    method TickPersist()
      requires Valid()
      modifies `phase, `disk, `emitted
      ensures Valid() && old(emitted).Keys <= emitted.Keys
      ensures old(phase) == Computed ==>
                phase == Persisted && disk == collector.state && emitted == Registered(old(emitted), collector.state.outbox)
      ensures old(phase) != Computed ==> phase == old(phase) && disk == old(disk) && emitted == old(emitted)
    {
      hide Known, Accounted, Genuine, Drafted, Numbered, AllAnswered, AllKnown, Ingested, Registered, P.Panel.Valid, C.Collector.Sound;
      if phase == Computed {
        KnownGrows(emitted, drawn, collector.state.outbox, report, requests, panel.history, node, Committed());
        emitted := Registered(emitted, collector.state.outbox);
        disk := collector.state;
        phase := Persisted;
      }
    }

    /** Unlink an acknowledgement whose sample is no longer pending. */
    method TickDropAck(id: SampleId)
      requires Valid()
      modifies `acks
      ensures Valid()
      ensures acks == if phase == Persisted && !C.Pending(collector.state.outbox, id) then old(acks) - {id} else old(acks)
    {
      if phase == Persisted && !C.Pending(collector.state.outbox, id) {
        acks := acks - {id};
      }
    }

    method TickReport()
      requires Valid()
      modifies `report, `phase
      ensures Valid()
      ensures old(phase) == Persisted ==> phase == Idle && report == Front(collector.state.outbox)
      ensures old(phase) != Persisted ==> phase == old(phase) && report == old(report)
    {
      if phase == Persisted {
        report := Front(collector.state.outbox);
        phase := Idle;
      }
    }

    /** The collector dies at any point of its tick and starts again from the disk. */
    method CollectorCrash()
      requires Valid()
      modifies `phase, collector
      ensures Valid() && phase == Idle && collector.state == disk
    {
      KnownIsDrafted(emitted, drawn, disk.outbox);
      collector.Restart(disk);
      phase := Idle;
    }

    // ---------- the relay and the panel ----------

    method RelaySend()
      requires Valid()
      modifies `requests
      ensures Valid() && requests == old(requests) + {report}
    {
      requests := requests + {report};
    }

    /** The panel takes the request; otherwise it refuses all of it. */
    ghost predicate Takes(ledger: P.Ledger, request: seq<Sample>, now: int, observedAt: int, wellFormed: bool, admits: bool, refuses: Sample -> bool)
    {
      P.Validate(P.Report(1, observedAt, wellFormed, request), now) && admits && forall s :: s in P.Fresh(ledger, node, request) ==> !refuses(s)
    }

    /** A request arrives, perhaps late and perhaps not for the first time. */
    method PanelReceive(request: seq<Sample>, now: int, observedAt: int, wellFormed: bool, admits: bool, refuses: Sample -> bool, price: Sample -> P.Price)
      requires Valid() && panel.clock <= now
      modifies `responses, panel
      ensures Valid()
      ensures if request in requests && Takes(old(panel.ledger), request, now, observedAt, wellFormed, admits, refuses)
              then responses == old(responses) + {Response(request, P.Ids(request))}
                   && panel.history == old(panel.history) + P.Entries(node, P.Fresh(old(panel.ledger), node, request))
              else responses == old(responses) && panel.history == old(panel.history)
    {
      if request in requests {
        ghost var history, ledger := panel.history, panel.ledger;
        var accepted := panel.Ingest(node, P.Report(1, observedAt, wellFormed, request), now, admits, refuses, price);
        if accepted.Accepted? {
          CommitIsGenuine(emitted, history, ledger, node, request);
          AcceptedIsIngested(panel.history, ledger, node, request, panel.ledger);
          responses := responses + {Response(request, accepted.ids)};
        }
      }
    }

    /** Another node reports. */
    method PanelReceiveOther(other: string, r: P.Report, now: int, admits: bool, refuses: Sample -> bool, price: Sample -> P.Price)
      requires Valid() && panel.clock <= now && other != node
      modifies panel
      ensures Valid() && panel.clock == now && Committed() == old(Committed())
    {
      OtherNodesCommit(panel.history, panel.ledger, node, other, r.samples);
      var accepted := panel.Ingest(other, r, now, admits, refuses, price);
    }

    method PanelMaintain(now: int)
      requires Valid() && panel.clock <= now
      modifies panel
      ensures Valid() && panel.clock == now && panel.history == old(panel.history)
    {
      var ok := panel.Maintain(now);
    }

    /** The relay writes one acknowledgement of a response to a request of its own. */
    method RelayAck(response: Response, id: SampleId)
      requires Valid()
      modifies `acks
      ensures Valid()
      ensures acks == if response in responses && id in response.ids && C.Pending(response.offered, id) then old(acks) + {id} else old(acks)
    {
      if response in responses && id in response.ids && C.Pending(response.offered, id) {
        acks := acks + {id};
      }
    }

    // ---------- what every reachable state guarantees ----------

    /** Emitted is what is pending in the durable outbox or committed by the panel, and nothing else is. */
    lemma NothingIsLost(id: SampleId)
      requires Valid()
      ensures id in emitted <==> C.Pending(disk.outbox, id) || id in Committed()
    {
      if C.Pending(disk.outbox, id) {
        var s :| s in disk.outbox && s.id == id;
        assert s.id in emitted;
      }
      if id in Committed() {
        var e :| e in panel.history && e.key.node == node && e.key.id == id;
        assert e.key.id in emitted;
      }
    }

    /** The panel has stored no sample of this node twice, even after forgetting it. */
    lemma NothingIsStoredTwice(i: nat, j: nat)
      requires Valid() && i < j < |panel.intake| && panel.intake[i].node == panel.intake[j].node == node
      ensures panel.intake[i].sample.id != panel.intake[j].sample.id
    {
      assert panel.history[i] in panel.history && panel.history[j] in panel.history;
      panel.StoredOnce(i, j);
    }
  }

  datatype Event =
    | Absorb(now: int)
    | PersistEarly
    | Collect(now: int, enabled: bool, source: C.Source)
    | Persist
    | DropAck(id: SampleId)
    | Report
    | Crash
    | Send
    | Receive(request: seq<Sample>, now: int, observedAt: int, wellFormed: bool, admits: bool, refuses: Sample -> bool, price: Sample -> P.Price)
    | ReceiveOther(other: string, r: P.Report, now: int, admits: bool, refuses: Sample -> bool, price: Sample -> P.Price)
    | Maintain(now: int)
    | Ack(response: Response, id: SampleId)

  /** Any sequence of steps, with a panel clock that does not fall back: a sample leaves the durable outbox
      only once the panel has committed it, and what was emitted stays emitted. */
  method Run(p: Pipeline, events: seq<Event>)
    requires p.Valid()
    modifies p, p.collector, p.panel
    ensures p.Valid() && old(p.emitted).Keys <= p.emitted.Keys
    ensures |p.disk.outbox| <= C.MAX_OUTBOX
    ensures forall id :: C.Pending(old(p.disk.outbox), id) ==> C.Pending(p.disk.outbox, id) || id in p.Committed()
    ensures events != [] && events[|events| - 1] == Crash ==> p.phase == Idle && p.collector.state == p.disk
  {
    for i := 0 to |events|
      invariant p.Valid() && old(p.emitted).Keys <= p.emitted.Keys
      invariant i > 0 && events[i - 1] == Crash ==> p.phase == Idle && p.collector.state == p.disk
    {
      Step(p, events[i]);
    }
    forall id | C.Pending(old(p.disk.outbox), id)
      ensures C.Pending(p.disk.outbox, id) || id in p.Committed()
    {
      assert id in old(p.emitted) by {
        var s :| s in old(p.disk.outbox) && s.id == id;
        assert s.id in old(p.emitted);
      }
      assert id in p.emitted;
    }
  }

  method Step(p: Pipeline, e: Event)
    requires p.Valid()
    modifies p, p.collector, p.panel
    ensures p.Valid() && old(p.emitted).Keys <= p.emitted.Keys
    ensures e.Receive? && old(p.panel.clock) <= e.now && e.request in old(p.requests) &&
            p.Takes(old(p.panel.ledger), e.request, e.now, e.observedAt, e.wellFormed, e.admits, e.refuses) ==>
              Response(e.request, P.Ids(e.request)) in p.responses
    ensures e.ReceiveOther? && old(p.panel.clock) <= e.now && e.other != p.node ==> p.panel.clock == e.now
    ensures e.Maintain? && old(p.panel.clock) <= e.now ==> p.panel.clock == e.now
    ensures e.Crash? ==> p.phase == Idle && p.collector.state == p.disk
    ensures e.Collect? && old(p.phase) == Absorbed ==> p.phase == Computed
  {
    hide *;
    match e
    case Absorb(now) => p.TickAbsorb(now);
    case PersistEarly => p.TickPersistEarly();
    case Collect(now, enabled, source) =>
      var status, order := p.TickCollect(now, enabled, source);
    case Persist => p.TickPersist();
    case DropAck(id) => p.TickDropAck(id);
    case Report => p.TickReport();
    case Crash => p.CollectorCrash();
    case Send => p.RelaySend();
    case Receive(request, now, observedAt, wellFormed, admits, refuses, price) =>
      if p.panel.clock <= now {
        p.PanelReceive(request, now, observedAt, wellFormed, admits, refuses, price);
      }
    case ReceiveOther(other, r, now, admits, refuses, price) =>
      if p.panel.clock <= now && other != p.node {
        p.PanelReceiveOther(other, r, now, admits, refuses, price);
      }
    case Maintain(now) =>
      if p.panel.clock <= now {
        p.PanelMaintain(now);
      }
    case Ack(response, id) => p.RelayAck(response, id);
  }
}
