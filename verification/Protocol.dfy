/** The acknowledgement protocol by the numbers of the message kinds: what stands in a client's
    trace for each of them, and which messages end the client. */
module Protocol {
  import opened ControlInterface
  import opened ControlMessage
  import opened Dispatch
  import opened Fragmentation
  import opened Payload
  import opened Time

  /** The kinds each client handles, acknowledges on reception, and confirms when done. */
  const ENDNODE_HANDLES: set<uint32> := {2, 3, 6, 7, 8, 9, 12, 13, 14, 15, 16}
  const ENDNODE_RECEIVES: set<uint32> := {3, 6, 7, 8, 9, 12, 13, 14, 15, 16}
  const ENDNODE_CONFIRMS: set<uint32> := {6, 12, 13, 14, 15}
  const SWITCH_HANDLES: set<uint32> := {2, 5, 7, 8, 12, 14, 16}
  const SWITCH_RECEIVES: set<uint32> := {5, 7, 8, 12, 14, 16}
  const SWITCH_CONFIRMS: set<uint32> := {5, 12, 14}

  predicate Handles(client: Client, kind: uint32) {
    kind in if client == Endnode then ENDNODE_HANDLES else SWITCH_HANDLES
  }

  predicate Receives(client: Client, kind: uint32) {
    kind in if client == Endnode then ENDNODE_RECEIVES else SWITCH_RECEIVES
  }

  predicate Confirms(client: Client, kind: uint32) {
    kind in if client == Endnode then ENDNODE_CONFIRMS else SWITCH_CONFIRMS
  }

  lemma KindsByNumber(client: Client, kind: uint32)
    ensures Known(client, kind) <==> Handles(client, kind)
    ensures Acknowledged(client, kind) <==> Receives(client, kind)
    ensures Confirmed(client, kind) <==> Confirms(client, kind)
  {}

  /** A kind a client does not handle has no reaction, and only the exits leave. */
  lemma UnknownDoesNothing(client: Client, m: Message, clock: seq<Timespec>)
    ensures !Handles(client, m.kind) ==> React(client, m, clock) == Reaction([], false, true)
    ensures React(client, m, clock).leaves ==> m.kind == 7 || m.kind == 16
  {
    var p := Parse(m.payload, Empty()).1;
    EndnodeReacts(m.kind, p, m.mode, clock);
    SwitchReacts(m.kind, p, m.mode, clock);
  }

  /** A message served by a live client adds exactly this to the trace: it is taken; received, if
      its kind is one of those; its effects; and it is done, if its kind is one of those and its
      handler has returned. The client stays active unless the handler leaves, and goes on unless
      the handler has not returned. */
  lemma BlockExactly(client: Client, ms: seq<Message>, clocks: seq<seq<Timespec>>, i: nat)
    requires i < |ms| && Live(Serve(client, ms, Reactions(client, ms, clocks), i))
    ensures var rs := Reactions(client, ms, clocks);
      var s, r := Serve(client, ms, rs, i + 1), React(client, ms[i], ClockFor(clocks, i));
      && s.events == Serve(client, ms, rs, i).events
                     + ([Taken(i)]
                        + ((if Receives(client, ms[i].kind) then [Receive(i)] else [])
                           + r.effects
                           + (if Confirms(client, ms[i].kind) && r.returned then [Done(i)] else [])))
      && s.active == !r.leaves && s.stuck == !r.returned
      && (!Handles(client, ms[i].kind) ==> r == Reaction([], false, true))
  {
    var _ := ClockFor(clocks, i);
    KindsByNumber(client, ms[i].kind);
    UnknownDoesNothing(client, ms[i], ClockFor(clocks, i));
  }

  lemma EffectsHave(es: seq<TraceEvent>, i: nat)
    requires AllEffects(es)
    ensures Taken(i) !in es && Receive(i) !in es && Done(i) !in es
  {
    forall k | 0 <= k < |es| ensures es[k] != Taken(i) && es[k] != Receive(i) && es[k] != Done(i) {
      assert IsEffect(es[k]);
    }
  }

  /** What a trace holds of message `i` of the given kind, which was served or not. */
  predicate Has(client: Client, kind: uint32, returned: bool, events: seq<TraceEvent>, i: nat, served: bool) {
    && (Taken(i) in events <==> served)
    && (Receive(i) in events <==> served && Receives(client, kind))
    && (Done(i) in events <==> served && Confirms(client, kind) && returned)
  }

  lemma AnswerHas(client: Client, kind: uint32, r: Reaction, i: nat)
    requires AllEffects(r.effects)
    ensures Has(client, kind, r.returned, Answer(client, kind, r, i), i, true)
  {
    KindsByNumber(client, kind);
    EffectsHave(r.effects, i);
  }

  lemma AnswerHasNot(client: Client, kind: uint32, r: Reaction, j: nat, i: nat)
    requires AllEffects(r.effects) && i != j
    ensures var answer := Answer(client, kind, r, j);
      Taken(i) !in answer && Receive(i) !in answer && Done(i) !in answer
  {
    EffectsHave(r.effects, i);
  }

  lemma HasMore(client: Client, kind: uint32, returned: bool, events: seq<TraceEvent>, more: seq<TraceEvent>, i: nat,
                served: bool, now: bool)
    requires Has(client, kind, returned, events, i, served) && Has(client, kind, returned, more, i, now)
    ensures Has(client, kind, returned, events + more, i, served || now)
  {
    forall e ensures e in events + more <==> e in events || e in more {}
  }

  lemma ServedHas(client: Client, ms: seq<Message>, rs: seq<Reaction>, n: nat, i: nat)
    requires i < |ms| == |rs| && n < |ms| && AllEffects(rs[n].effects)
    requires Has(client, ms[i].kind, rs[i].returned, Serve(client, ms, rs, n).events, i,
                 i < n && Live(Serve(client, ms, rs, i)))
    ensures Has(client, ms[i].kind, rs[i].returned, Serve(client, ms, rs, n + 1).events, i,
                i < n + 1 && Live(Serve(client, ms, rs, i)))
  {
    var s := Serve(client, ms, rs, n);
    if Live(s) {
      var answer := Answer(client, ms[n].kind, rs[n], n);
      assert Serve(client, ms, rs, n + 1).events == s.events + answer;
      if i == n {
        AnswerHas(client, ms[n].kind, rs[n], n);
      } else {
        AnswerHasNot(client, ms[n].kind, rs[n], n, i);
      }
      HasMore(client, ms[i].kind, rs[i].returned, s.events, answer, i, i < n && Live(Serve(client, ms, rs, i)), i == n);
    }
  }

  lemma {:induction false} ServedAllHas(client: Client, ms: seq<Message>, rs: seq<Reaction>, n: nat, i: nat)
    requires i < |ms| == |rs| && n <= |ms| && Effective(rs)
    ensures Has(client, ms[i].kind, rs[i].returned, Serve(client, ms, rs, n).events, i,
                i < n && Live(Serve(client, ms, rs, i)))
    decreases n
  {
    if n > 0 {
      ServedAllHas(client, ms, rs, n - 1, i);
      EffectsOf(rs, n - 1);
      ServedHas(client, ms, rs, n - 1, i);
    }
  }

  /** In the trace of every client after `n` messages: message `i` is taken exactly if the client
      was live for it, acknowledged exactly if its kind also is one of those, and confirmed
      exactly if its kind is one of those and its handler has returned. */
  lemma TraceHas(client: Client, ms: seq<Message>, clocks: seq<seq<Timespec>>, n: nat, i: nat)
    requires i < |ms| && n <= |ms|
    ensures var rs := Reactions(client, ms, clocks);
      var events, served := Serve(client, ms, rs, n).events, i < n && Live(Serve(client, ms, rs, i));
      && (Taken(i) in events <==> served)
      && (Receive(i) in events <==> served && Receives(client, ms[i].kind))
      && (Done(i) in events <==> served && Confirms(client, ms[i].kind) && rs[i].returned)
      && rs[i] == React(client, ms[i], ClockFor(clocks, i))
  {
    var rs := Reactions(client, ms, clocks);
    ReactionsEffective(client, ms, clocks, rs);
    ServedAllHas(client, ms, rs, n, i);
  }
}
