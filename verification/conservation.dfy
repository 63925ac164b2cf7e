/** Counting over arbitrary sequences of manager calls: nothing is assumed about the callers. */
module Conservation {
  import opened Wrappers
  import opened Sockets
  import opened Connections
  import Registry
  import Usernames

  datatype Call =
    | RegisterCall(ws: SocketId, name: string, installId: string, metadata: Metadata, now: string)
    | ConnectCall(ws: SocketId, name: string, now: string)
    | ForwardCall(ws: SocketId, frame: Frame)
    | CloseCall(ws: SocketId, known: Option<string>)
    | TableChange(table: Registry.Table)

  datatype Outcome = RegisteredNow(replaced: bool) | PairedUp | WaitingGone | PairGone | Nothing

  datatype Totals = Totals(registrations: nat, replacements: nat, connects: nat, waitingCloses: nat, pairCloses: nat)

  function Perform(w: World, c: Call): (World, Outcome) {
    match c
    case RegisterCall(ws, name, installId, metadata, now) =>
      var (w', result) := AfterRegister(w, ws, name, installId, metadata, now);
      (w', if result.Rejected? then Nothing else RegisteredNow(name in w.manager.waiting))
    case ConnectCall(ws, name, now) =>
      var (w', result) := AfterConnect(w, ws, name, now);
      (w', if result.Connected? then PairedUp else Nothing)
    case ForwardCall(ws, frame) => (w.(net := AfterForward(w.manager, w.net, ws, frame)), Nothing)
    case CloseCall(ws, known) =>
      var (w', result) := AfterClose(w, ws, known);
      (w', match result
           case WaitingServerClosed(_) => WaitingGone
           case PairDisconnected(_, _) => PairGone
           case NoneClosed => Nothing)
    case TableChange(table) => (w.(table := table), Nothing)
  }

  function PerformAll(w: World, calls: seq<Call>): (World, seq<Outcome>)
    decreases |calls|
  {
    if calls == [] then (w, [])
    else
      var (w1, outcomes) := PerformAll(w, calls[..|calls| - 1]);
      var (w2, outcome) := Perform(w1, calls[|calls| - 1]);
      (w2, outcomes + [outcome])
  }

  function Add(t: Totals, o: Outcome): Totals {
    match o
    case RegisteredNow(replaced) =>
      t.(registrations := t.registrations + 1, replacements := t.replacements + if replaced then 1 else 0)
    case PairedUp => t.(connects := t.connects + 1)
    case WaitingGone => t.(waitingCloses := t.waitingCloses + 1)
    case PairGone => t.(pairCloses := t.pairCloses + 1)
    case Nothing => t
  }

  /** What a list of outcomes amounts to. */
  function TotalsOf(outcomes: seq<Outcome>): Totals {
    if outcomes == [] then Totals(0, 0, 0, 0, 0)
    else Add(TotalsOf(outcomes[..|outcomes| - 1]), outcomes[|outcomes| - 1])
  }

  /** Every entry of the lookup is for one end of a pair that still stands. */
  ghost predicate EntriesLive(m: Manager) {
    && (forall p :: p in m.pairs ==> p.serial < m.nextSerial)
    && forall k :: k in m.pairLookup ==>
         m.pairLookup[k] in m.pairs && (k == m.pairLookup[k].server || k == m.pairLookup[k].client)
  }

  /** The books balance: pairs and waiting servers are what came in and has not gone out. */
  ghost predicate Balanced(m: Manager, t: Totals) {
    && |m.pairs| + t.pairCloses == t.connects
    && t.registrations == |m.waiting| + t.connects + t.waitingCloses + t.replacements
  }

  lemma ConnectConserves(w: World, c: Call, t: Totals)
    requires EntriesLive(w.manager) && Balanced(w.manager, t) && c.ConnectCall?
    ensures EntriesLive(Perform(w, c).0.manager) && Balanced(Perform(w, c).0.manager, Add(t, Perform(w, c).1))
  {
    var m := w.manager;
    if c.name in w.table && c.name in m.waiting {
      var pair := Pair(m.nextSerial, m.waiting[c.name], c.ws);
      assert pair !in m.pairs;
    }
  }

  lemma CloseConserves(w: World, c: Call, t: Totals)
    requires EntriesLive(w.manager) && Balanced(w.manager, t) && c.CloseCall?
    ensures EntriesLive(Perform(w, c).0.manager) && Balanced(Perform(w, c).0.manager, Add(t, Perform(w, c).1))
  {
    var m := w.manager;
    var (w', o) := Perform(w, c);
    if o == PairGone {
      var p := m.pairLookup[c.ws];
      assert w'.manager == DropPair(m, p);
      DropPairEntries(m, p);
      assert |m.pairs - {p}| == |m.pairs| - 1;
    } else if o == WaitingGone {
      assert w'.manager == DropWaiting(m, c.ws, c.known.value);
      assert |m.waiting - {c.known.value}| == |m.waiting| - 1;
    } else {
      assert w'.manager == m;
    }
  }

  lemma RegisterConserves(w: World, c: Call, t: Totals)
    requires EntriesLive(w.manager) && Balanced(w.manager, t) && c.RegisterCall?
    ensures EntriesLive(Perform(w, c).0.manager) && Balanced(Perform(w, c).0.manager, Add(t, Perform(w, c).1))
  {
  }

  lemma PerformConserves(w: World, c: Call, t: Totals)
    requires EntriesLive(w.manager) && Balanced(w.manager, t)
    ensures EntriesLive(Perform(w, c).0.manager) && Balanced(Perform(w, c).0.manager, Add(t, Perform(w, c).1))
  {
    match c
    case RegisterCall(_, _, _, _, _) => RegisterConserves(w, c, t);
    case ConnectCall(_, _, _) => ConnectConserves(w, c, t);
    case CloseCall(_, _) => CloseConserves(w, c, t);
    case _ =>
  }

  lemma DropPairEntries(m: Manager, p: Pair)
    requires EntriesLive(m)
    ensures EntriesLive(DropPair(m, p))
  {
    var m' := DropPair(m, p);
    forall k | k in m'.pairLookup ensures m'.pairLookup[k] in m'.pairs {
      assert m.pairLookup[k] in m.pairs;
    }
  }

  /** From an empty manager, after any calls whatever. */
  lemma {:induction false} Conserved(table: Registry.Table, net: Net, calls: seq<Call>)
    ensures var (w, outcomes) := PerformAll(World(table, EmptyManager(), net), calls);
      EntriesLive(w.manager) && Balanced(w.manager, TotalsOf(outcomes))
  {
    if calls != [] {
      var n := |calls| - 1;
      Conserved(table, net, calls[..n]);
      var (w1, outcomes) := PerformAll(World(table, EmptyManager(), net), calls[..n]);
      PerformConserves(w1, calls[n], TotalsOf(outcomes));
      assert (outcomes + [Perform(w1, calls[n]).1])[..|outcomes|] == outcomes;
    }
  }
}
