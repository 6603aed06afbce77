/**
 What becomes of every message of a SIP dialog: over any interleaving, the state of an entry against
 the counts of what reached it and what its handlers, awaiter and watcher did.
 */
module Ledger {
  import opened Common
  import opened Dialog
  import C = Call

  /** Messages of one kind that found an entry. */
  ghost function Delivered(evs: seq<Event>, id: Id, request: Request): nat {
    if evs == [] then 0
    else
      var n := |evs| - 1;
      Delivered(evs[..n], id, request) + if Exec(evs[..n]).Some? && Finds(Exec(evs[..n]).value, evs[n], id, request)
                                         then 1 else 0
  }

  predicate Finds(s: Server, ev: Event, id: Id, request: Request) {
    ev.Requested? && ev.request == request && Find(s.maps, ev.toTag, ev.callID) == Some(id)
  }

  /** Shutdowns that found an entry filed. */
  ghost function Swept(evs: seq<Event>, id: Id): nat {
    if evs == [] then 0
    else
      var n := |evs| - 1;
      Swept(evs[..n], id) + if Exec(evs[..n]).Some? && Sweeps(Exec(evs[..n]).value, evs[n], id) then 1 else 0
  }

  predicate Sweeps(s: Server, ev: Event, id: Id) {
    ev.ShutDown? && !s.stopped && id in s.maps.byTag.Values
  }

  function One(b: bool): nat {
    if b then 1 else 0
  }

  /** How often each action was taken, and what arrived. */
  datatype Counts = Counts(times: Action -> nat, acks: nat, byes: nat, cancels: nat, sweeps: nat)

  /** The INVITE is answered or refused once, and its awaiter ends once, removing the entry unless an ACK came. */
  ghost predicate AnswerBalance(e: Entry, n: Action -> nat) {
    && n(Respond) == One(e.invite.Accepted?)
    && n(RespondFails) == One(Turned(e.invite))
    && n(RefusedCloses) == One(e.invite.Refused?)
    && n(TakeAck(true)) + n(TakeAck(false)) + n(TransactionCancel) + n(AckTimeout)
         == One(e.awaiter.AwaiterMustRemove? || e.awaiter.AwaiterDone?)
    && n(TakeAck(true)) + n(TakeAck(false)) + n(AwaiterRemoves) == One(e.awaiter.AwaiterDone?)
  }

  /** The close body of a BYE runs once, closing before it removes; the other BYEs are skipped. */
  ghost predicate ByeBalance(e: Entry, n: Action -> nat, byes: nat) {
    && byes == e.pendingByes + n(ByeEnters) + n(ByeSkips)
    && n(ByeEnters) == One(e.close.ByeMustClose? || e.close.ByeMustRemove? || e.close == Used(false))
    && n(ByeCloses) == One(e.close.ByeMustRemove? || e.close == Used(false))
    && n(ByeRemoves) == One(e.close == Used(false))
  }

  /** Every CANCEL closes once and removes once, in this order. */
  ghost predicate CancelBalance(e: Entry, n: Action -> nat, cancels: nat) {
    && cancels == e.pendingCancels + n(CancelCloses)
    && n(CancelCloses) == e.pendingRemoves + n(CancelRemoves)
  }

  /** The watcher wakes once, and ends by removing, by its close body, or by finding that body used. */
  ghost predicate WatcherBalance(e: Entry, n: Action -> nat) {
    && n(WatcherWakes) == One(e.watcher.Chose? || e.watcher.InBody? || e.watcher.Gone?)
    && n(WatcherEnters) == One(e.close.WatcherMustSend? || e.close.WatcherMustRemove? || e.close == Used(true))
    && n(WatcherSends(true)) + n(WatcherSends(false)) == One(e.close.WatcherMustRemove? || e.close == Used(true))
    && n(WatcherRemovesInBody) == One(e.close == Used(true))
    && n(WatcherSkips) + n(WatcherRemoves) + n(WatcherRemovesInBody) == One(e.watcher.Gone?)
  }

  ghost predicate Balanced(e: Entry, n: Counts) {
    && AnswerBalance(e, n.times)
    && ByeBalance(e, n.times, n.byes)
    && CancelBalance(e, n.times, n.cancels)
    && WatcherBalance(e, n.times)
    && (e.ackBuffered <==> n.acks > 0)
    && (n.times(TakeAck(false)) > 0 ==> n.acks > 0)
    && n.times(ShutdownCloses) + One(e.mustShutDown) == n.sweeps
  }

  /** after is before with one more a. */
  ghost predicate OneMore(before: Action -> nat, after: Action -> nat, a: Action) {
    forall b :: after(b) == before(b) + One(b == a)
  }

  // ---- one action ------------------------------------------------------------------------

  predicate OfAnswer(a: Action) {
    || a.Respond? || a.RespondFails? || a.RefusedCloses?
    || a.TakeAck? || a.TransactionCancel? || a.AckTimeout? || a.AwaiterRemoves?
  }

  lemma InviteMoves(e: Entry, a: Action, n: Action -> nat, n': Action -> nat)
    requires AwaiterInv(e) && Can(e, a) && AnswerBalance(e, n) && OneMore(n, n', a)
    requires a.Respond? || a.RespondFails? || a.RefusedCloses?
    ensures AnswerBalance(Bookkeep(e, a), n')
  {
    hide C.Enabled, C.IsDone, C.ShouldSendBYE;
  }

  lemma AwaiterMoves(e: Entry, a: Action, n: Action -> nat, n': Action -> nat)
    requires Can(e, a) && AnswerBalance(e, n) && OneMore(n, n', a)
    requires a.TakeAck? || a.TransactionCancel? || a.AckTimeout? || a.AwaiterRemoves?
    ensures AnswerBalance(Bookkeep(e, a), n')
  {
    hide C.Enabled, C.IsDone, C.ShouldSendBYE;
  }

  lemma OthersSpareAnswer(e: Entry, a: Action)
    requires Can(e, a) && !OfAnswer(a)
    ensures Bookkeep(e, a).invite == e.invite && Bookkeep(e, a).awaiter == e.awaiter
  {
    hide C.Enabled, C.IsDone, C.ShouldSendBYE;
  }

  lemma AnswerStays(e: Entry, a: Action, n: Action -> nat, n': Action -> nat)
    requires Can(e, a) && AnswerBalance(e, n) && OneMore(n, n', a) && !OfAnswer(a)
    ensures AnswerBalance(Bookkeep(e, a), n')
  {
    hide Can, Bookkeep;
    OthersSpareAnswer(e, a);
  }

  lemma AnswerKept(e: Entry, a: Action, n: Action -> nat, n': Action -> nat)
    requires AwaiterInv(e) && Can(e, a) && AnswerBalance(e, n) && OneMore(n, n', a)
    ensures AnswerBalance(Bookkeep(e, a), n')
  {
    hide AwaiterInv, Can, Bookkeep, AnswerBalance, OneMore;
    if a.Respond? || a.RespondFails? || a.RefusedCloses? {
      InviteMoves(e, a, n, n');
    } else if OfAnswer(a) {
      AwaiterMoves(e, a, n, n');
    } else {
      AnswerStays(e, a, n, n');
    }
  }

  predicate OfBye(a: Action) {
    a.ByeEnters? || a.ByeCloses? || a.ByeRemoves? || a.ByeSkips?
  }

  lemma ByeMoves(e: Entry, a: Action, n: Action -> nat, n': Action -> nat, byes: nat)
    requires Can(e, a) && ByeBalance(e, n, byes) && OneMore(n, n', a) && OfBye(a)
    ensures ByeBalance(Bookkeep(e, a), n', byes)
  {
    hide C.Enabled, C.IsDone, C.ShouldSendBYE;
  }

  lemma OthersSpareBye(e: Entry, a: Action)
    requires Can(e, a) && !OfBye(a)
    ensures var b := Bookkeep(e, a);
      && b.pendingByes == e.pendingByes && (b.close == Used(false) <==> e.close == Used(false))
      && (b.close.ByeMustClose? <==> e.close.ByeMustClose?) && (b.close.ByeMustRemove? <==> e.close.ByeMustRemove?)
  {
    hide C.Enabled, C.IsDone, C.ShouldSendBYE;
  }

  lemma ByeKept(e: Entry, a: Action, n: Action -> nat, n': Action -> nat, byes: nat)
    requires Can(e, a) && ByeBalance(e, n, byes) && OneMore(n, n', a)
    ensures ByeBalance(Bookkeep(e, a), n', byes)
  {
    hide Can, Bookkeep;
    if OfBye(a) {
      hide OneMore, ByeBalance;
      ByeMoves(e, a, n, n', byes);
    } else {
      OthersSpareBye(e, a);
    }
  }

  lemma CancelKept(e: Entry, a: Action, n: Action -> nat, n': Action -> nat, cancels: nat)
    requires Can(e, a) && CancelBalance(e, n, cancels) && OneMore(n, n', a)
    ensures CancelBalance(Bookkeep(e, a), n', cancels)
  {
    hide C.Enabled, C.IsDone, C.ShouldSendBYE;
  }

  lemma WatcherMoves(e: Entry, a: Action, n: Action -> nat, n': Action -> nat)
    requires CloseInv(e) && Can(e, a) && WatcherBalance(e, n) && OneMore(n, n', a)
    requires a.WatcherWakes? || a.WatcherSkips? || a.WatcherRemoves?
    ensures WatcherBalance(Bookkeep(e, a), n')
  {
    assert Bookkeep(e, a).close == e.close;
    hide C.Enabled, C.IsDone, C.ShouldSendBYE;
  }

  lemma BodyMoves(e: Entry, a: Action, n: Action -> nat, n': Action -> nat)
    requires CloseInv(e) && Can(e, a) && WatcherBalance(e, n) && OneMore(n, n', a)
    requires a.WatcherEnters? || a.WatcherSends? || a.WatcherRemovesInBody?
    ensures WatcherBalance(Bookkeep(e, a), n')
  {
    hide C.Enabled, C.IsDone, C.ShouldSendBYE;
  }

  lemma OthersSpareWatcher(e: Entry, a: Action)
    requires CloseInv(e) && Can(e, a) && !OfWatcher(a)
    ensures var b := Bookkeep(e, a);
      && (b.watcher.Chose? <==> e.watcher.Chose?) && (b.watcher.InBody? <==> e.watcher.InBody?)
      && (b.watcher.Gone? <==> e.watcher.Gone?) && (b.close == Used(true) <==> e.close == Used(true))
      && (b.close.WatcherMustSend? <==> e.close.WatcherMustSend?)
      && (b.close.WatcherMustRemove? <==> e.close.WatcherMustRemove?)
  {
    assert a.Respond? ==> e.watcher.NoWatcher?;
    hide CloseInv, C.Enabled, C.IsDone, C.ShouldSendBYE;
  }

  lemma WatcherKept(e: Entry, a: Action, n: Action -> nat, n': Action -> nat)
    requires CloseInv(e) && Can(e, a) && WatcherBalance(e, n) && OneMore(n, n', a)
    ensures WatcherBalance(Bookkeep(e, a), n')
  {
    hide CloseInv, Can, Bookkeep;
    if a.WatcherWakes? || a.WatcherSkips? || a.WatcherRemoves? {
      hide OneMore, WatcherBalance;
      WatcherMoves(e, a, n, n');
    } else if OfWatcher(a) {
      hide OneMore, WatcherBalance;
      BodyMoves(e, a, n, n');
    } else {
      OthersSpareWatcher(e, a);
    }
  }

  lemma ActBalances(e: Entry, a: Action, n: Counts, n': Counts)
    requires EntryInv(e) && Can(e, a) && Balanced(e, n)
    requires OneMore(n.times, n'.times, a) && n' == n.(times := n'.times)
    ensures Balanced(Act(e, a), n')
  {
    BookkeepBalances(e, a, n, n');
    hide *;
    ActIs(e, a);
    BalancedWithoutCall(Bookkeep(e, a), Act(e, a).call, n');
  }

  lemma BookkeepBalances(e: Entry, a: Action, n: Counts, n': Counts)
    requires EntryInv(e) && Can(e, a) && Balanced(e, n)
    requires OneMore(n.times, n'.times, a) && n' == n.(times := n'.times)
    ensures Balanced(Bookkeep(e, a), n')
  {
    hide CloseInv, DecisionInv, AwaiterInv, PastClose, Can, Bookkeep, OneMore;
    hide AnswerBalance, ByeBalance, CancelBalance, WatcherBalance;
    AnswerKept(e, a, n.times, n'.times);
    ByeKept(e, a, n.times, n'.times, n.byes);
    CancelKept(e, a, n.times, n'.times, n.cancels);
    WatcherKept(e, a, n.times, n'.times);
    ShutdownKept(e, a, n, n');
    AckKept(e, a, n, n');
  }

  lemma AckKept(e: Entry, a: Action, n: Counts, n': Counts)
    requires Can(e, a) && OneMore(n.times, n'.times, a)
    requires e.ackBuffered <==> n.acks > 0
    requires n.times(TakeAck(false)) > 0 ==> n.acks > 0
    ensures n'.times(TakeAck(false)) > 0 ==> n.acks > 0
  {
    hide C.Enabled, C.IsDone, C.ShouldSendBYE;
  }

  lemma BalancedWithoutCall(e: Entry, call: C.CallState, n: Counts)
    ensures Balanced(e.(call := call), n) == Balanced(e, n)
  {
  }

  lemma ShutdownKept(e: Entry, a: Action, n: Counts, n': Counts)
    requires Can(e, a) && OneMore(n.times, n'.times, a)
    requires n.times(ShutdownCloses) + One(e.mustShutDown) == n.sweeps
    ensures n'.times(ShutdownCloses) + One(Bookkeep(e, a).mustShutDown) == n.sweeps
    ensures Bookkeep(e, a).ackBuffered == e.ackBuffered
  {
    hide C.Enabled, C.IsDone, C.ShouldSendBYE;
  }

  // ---- every interleaving ----------------------------------------------------------------

  /** The counts of an interleaving. */
  ghost function CountsOf(evs: seq<Event>, id: Id): Counts {
    Counts(a => Times(evs, id, a), Delivered(evs, id, Ack), Delivered(evs, id, Bye), Delivered(evs, id, Cancel),
           Swept(evs, id))
  }

  /** Nothing has reached an entry before its INVITE. */
  ghost predicate Untouched(n: Counts) {
    (forall a :: n.times(a) == 0) && n.acks == n.byes == n.cancels == n.sweeps == 0
  }

  ghost predicate Kept(s: Server, id: Id, n: Counts) {
    && (id < |s.entries| ==> Balanced(s.entries[id], n))
    && (id >= |s.entries| ==> Untouched(n))
    && (!s.stopped ==> n.sweeps == 0)
  }

  /** The counts with one more event, handled in s. */
  ghost predicate Counted(s: Server, ev: Event, id: Id, n: Counts, n': Counts) {
    && (forall a :: n'.times(a) == n.times(a) + One(ev == Acted(id, a)))
    && n'.acks == n.acks + One(Finds(s, ev, id, Ack))
    && n'.byes == n.byes + One(Finds(s, ev, id, Bye))
    && n'.cancels == n.cancels + One(Finds(s, ev, id, Cancel))
    && n'.sweeps == n.sweeps + One(Sweeps(s, ev, id))
  }

  lemma OneEventMore(evs: seq<Event>, id: Id)
    requires evs != [] && Exec(evs[..|evs| - 1]).Some?
    ensures Counted(Exec(evs[..|evs| - 1]).value, evs[|evs| - 1], id, CountsOf(evs[..|evs| - 1], id), CountsOf(evs, id))
  {
    hide Exec, Finds, Sweeps;
  }

  lemma EntryBalances(s: Server, ev: Event, id: Id, n: Counts, n': Counts)
    requires Inv(s) && Possible(s, ev) && id < |s.entries| && Kept(s, id, n) && Counted(s, ev, id, n, n')
    ensures Balanced(Received(s, ev, id), n')
  {
    var e := s.entries[id];
    assert EntryInv(e);
    hide Inv, EntryInv, Act, Can, Balanced;
    if ev.Acted? && ev.id == id {
      CountedAct(s, id, ev.action, n, n');
      hide Counted, OneMore;
      ActBalances(e, ev.action, n, n');
    } else {
      assert forall a :: n'.times(a) == n.times(a);
      hide Finds, Sweeps, Deliver, Mark;
      ArrivalBalances(s, ev, id, n, n');
    }
  }

  lemma CountedAct(s: Server, id: Id, a: Action, n: Counts, n': Counts)
    requires Counted(s, Acted(id, a), id, n, n')
    ensures OneMore(n.times, n'.times, a) && n' == n.(times := n'.times)
  {
  }

  lemma ArrivalBalances(s: Server, ev: Event, id: Id, n: Counts, n': Counts)
    requires Possible(s, ev) && id < |s.entries| && !(ev.Acted? && ev.id == id)
    requires Balanced(s.entries[id], n) && (!s.stopped ==> n.sweeps == 0)
    requires Counted(s, ev, id, n, n') && forall a :: n'.times(a) == n.times(a)
    ensures Balanced(Received(s, ev, id), n')
  {
    hide Act, Can;
  }

  lemma ServerBalances(s: Server, ev: Event, id: Id, n: Counts, n': Counts)
    requires Inv(s) && Possible(s, ev) && Kept(s, id, n) && Counted(s, ev, id, n, n')
    ensures Kept(Next(s, ev), id, n')
  {
    NextEntry(s, ev, id);
    StopsOnce(s, ev);
    if id < |s.entries| {
      EntryBalances(s, ev, id, n, n');
      hide Inv, Next, Possible, Balanced, Received;
    } else {
      NotReached(s, ev, id);
      hide Inv, Next, Possible, EntryInv;
    }
  }

  lemma StopsOnce(s: Server, ev: Event)
    requires Inv(s) && Possible(s, ev)
    ensures Next(s, ev).stopped <==> s.stopped || ev.ShutDown?
    ensures s.stopped && ev.ShutDown? ==> Next(s, ev) == s
  {
    hide Inv, Act, Can;
  }

  /** Nothing reaches an entry that is not there. */
  lemma NotReached(s: Server, ev: Event, id: Id)
    requires Inv(s) && Possible(s, ev) && id >= |s.entries|
    ensures forall a :: ev != Acted(id, a)
    ensures forall request :: !Finds(s, ev, id, request)
    ensures !Sweeps(s, ev, id)
  {
    assert MapsInRange(s);
    hide Inv, EntryInv, Can;
  }

  /** In every interleaving, an entry's state is accounted for by what arrived and what was done about it. */
  lemma {:induction false} EveryMessageCounted(evs: seq<Event>, id: Id)
    ensures Exec(evs).Some? ==> Kept(Exec(evs).value, id, CountsOf(evs, id))
    decreases |evs|
  {
    if evs == [] {
    } else if Exec(evs).Some? {
      var n := |evs| - 1;
      EveryMessageCounted(evs[..n], id);
      OneEventMore(evs, id);
      hide Inv, Next, Possible, Kept, Counted, CountsOf;
      ServerBalances(Exec(evs[..n]).value, evs[n], id, CountsOf(evs[..n], id), CountsOf(evs, id));
    }
  }

  /** What is left of the counts when no thread of an entry can go on without a new message. */
  ghost predicate HandledOnce(n: Counts) {
    && n.byes == n.times(ByeEnters) + n.times(ByeSkips)
    && n.times(ByeEnters) == n.times(ByeCloses) == n.times(ByeRemoves) <= 1
    && n.cancels == n.times(CancelCloses) == n.times(CancelRemoves)
    && n.times(TransactionCancel) + n.times(AckTimeout) == n.times(AwaiterRemoves)
    && n.times(Respond) + n.times(RespondFails) == 1 && n.times(RespondFails) == n.times(RefusedCloses)
    && n.times(ShutdownCloses) == n.sweeps <= 1
    && n.times(WatcherEnters) == n.times(WatcherSends(true)) + n.times(WatcherSends(false))
         == n.times(WatcherRemovesInBody)
  }

  lemma RestBalances(e: Entry, n: Counts)
    requires EntryInv(e) && AtRest(e) && Balanced(e, n) && n.sweeps <= 1
    ensures HandledOnce(n)
  {
    NothingUnderWay(e);
    hide EntryInv, AtRest;
  }

  lemma NothingUnderWay(e: Entry)
    requires EntryInv(e) && AtRest(e)
    ensures e.pendingByes == e.pendingCancels == e.pendingRemoves == 0 && !e.mustShutDown
    ensures e.close.Unused? || e.close.Used?
    ensures e.invite.Accepted? || e.invite.Refused?
    ensures e.invite.Accepted? ==> e.awaiter.AwaiterDone?
    ensures e.invite.Refused? ==> e.awaiter.NoAwaiter?
  {
    RestIsQuiet(e);
    assert AwaiterInv(e) && CloseInv(e);
    HandlersDone(e);
    hide EntryInv, CloseInv;
    assert !ForcedAct(e, AckTimeout) && !ForcedAct(e, AwaiterRemoves);
    hide AtRest, ForcedAct;
  }

  lemma HandlersDone(e: Entry)
    requires AtRest(e)
    ensures e.pendingByes == e.pendingCancels == e.pendingRemoves == 0 && !e.mustShutDown
    ensures e.close.Unused? || e.close.Used?
  {
    assert !ForcedAct(e, ByeEnters) && !ForcedAct(e, ByeSkips) && !ForcedAct(e, ByeCloses);
    assert !ForcedAct(e, ByeRemoves) && !ForcedAct(e, WatcherSends(true)) && !ForcedAct(e, WatcherRemovesInBody);
    assert !ForcedAct(e, CancelCloses) && !ForcedAct(e, CancelRemoves) && !ForcedAct(e, ShutdownCloses);
    hide AtRest, C.Forced, C.Enabled, C.IsDone, C.ShouldSendBYE;
  }

  /**
   Over every interleaving, once an entry is at rest every BYE and CANCEL that found it has been
   handled exactly once, and every close of the call by a handler, the awaiter, the watcher or a
   shutdown was followed by its removal, once.
   */
  lemma MessagesHandledOnce(evs: seq<Event>, id: Id)
    ensures Exec(evs).Some? && id < |Exec(evs).value.entries| && AtRest(Exec(evs).value.entries[id]) ==>
      HandledOnce(CountsOf(evs, id))
  {
    EveryMessageCounted(evs, id);
    SweptOnce(evs, id);
    if Exec(evs).Some? && id < |Exec(evs).value.entries| && AtRest(Exec(evs).value.entries[id]) {
      assert EntryInv(Exec(evs).value.entries[id]);
      hide Exec, Inv, EntryInv, AtRest, Balanced, HandledOnce;
      RestBalances(Exec(evs).value.entries[id], CountsOf(evs, id));
    }
  }

  /** A second shutdown finds nothing to do. */
  lemma {:induction false} SweptOnce(evs: seq<Event>, id: Id)
    ensures Exec(evs).Some? ==>
      && Swept(evs, id) <= One(Exec(evs).value.stopped)
      && (Exec(evs).value.stopped <==> ShutDown in evs)
    decreases |evs|
  {
    if evs == [] {
    } else if Exec(evs).Some? {
      var n := |evs| - 1;
      SweptOnce(evs[..n], id);
      StopsOnce(Exec(evs[..n]).value, evs[n]);
      SplitLast([], evs);
      hide Inv, Next, Possible;
    }
  }

  lemma SecondShutdown(evs: seq<Event>)
    requires ShutDown in evs
    ensures Exec(evs + [ShutDown]) == Exec(evs)
  {
    SweptOnce(evs, 0);
    assert (evs + [ShutDown])[..|evs|] == evs;
    if Exec(evs).Some? {
      StopsOnce(Exec(evs).value, ShutDown);
    }
    hide Inv, Next;
  }

  /** A start of the call is an ACK taken by the awaiter. */
  lemma {:induction false} StartIsAck(evs: seq<Event>, id: Id)
    requires Exec(evs).Some?
    ensures C.Start in CallSteps(evs, id) ==> Times(evs, id, TakeAck(true)) + Times(evs, id, TakeAck(false)) > 0
    decreases |evs|
  {
    if evs == [] {
    } else {
      var n := |evs| - 1;
      assert evs[..n + 1] == evs;
      ExecStep(evs, n);
      StartIsAck(evs[..n], id);
      if evs[n].Acted? && CallPart(evs[n].action) == Some(C.Start) {
        StartsCall(Exec(evs[..n]).value, evs[n]);
      }
      hide Exec, CallPart, Possible;
    }
  }

  lemma StartsCall(s: Server, ev: Event)
    requires Possible(s, ev) && ev.Acted? && CallPart(ev.action) == Some(C.Start)
    ensures ev.action == TakeAck(true) || ev.action == TakeAck(false)
  {
    hide C.Enabled;
  }

  /** No media without an ACK: a call that was started was acknowledged, by its transaction or by an ACK. */
  lemma NoMediaWithoutAck(evs: seq<Event>, id: Id)
    requires Exec(evs).Some? && id < |Exec(evs).value.entries| && Exec(evs).value.entries[id].call.f.started
    ensures Times(evs, id, TakeAck(true)) > 0 || Delivered(evs, id, Ack) > 0
  {
    EveryMessageCounted(evs, id);
    RunsOneCall(evs, id);
    C.ExecPreceded(CallSteps(evs, id));
    StartIsAck(evs, id);
    hide Exec, C.Exec, Times, Delivered, CallSteps, Inv, AnswerBalance, ByeBalance, CancelBalance, WatcherBalance;
  }

  // ---- removal ---------------------------------------------------------------------------

  /** An entry that is in neither map never comes back. */
  lemma StaysOut(s: Server, ev: Event, id: Id)
    requires Inv(s) && Possible(s, ev) && id < |s.entries| && Absent(s.maps, id)
    ensures Absent(Next(s, ev).maps, id)
  {
    hide EntryInv, Act, Can, Removes, Filed, CleanedUp;
    if ev.Acted? && ev.id != id {
      RemoveSparesOthers(s.maps, ev.id, s.entries[ev.id].tag, s.entries[ev.id].callID, id);
    }
  }

  /** A failed answer, and each handler, the awaiter and the watcher once done, take the entry out of both maps. */
  predicate TakesOut(a: Action) {
    || a == RespondFails || a == AwaiterRemoves || a == ByeRemoves || a == CancelRemoves
    || a == WatcherRemoves || a == WatcherRemovesInBody
  }

  lemma TakenOut(s: Server, id: Id, a: Action)
    requires Inv(s) && Possible(s, Acted(id, a)) && TakesOut(a)
    ensures Absent(Next(s, Acted(id, a)).maps, id)
  {
    RemovedIsAbsent(s.maps, id, s.entries[id].tag, s.entries[id].callID);
    hide EntryInv, Act, Can;
  }

  lemma ActedHere(s: Server, id: Id, ev: Event)
    requires Possible(s, ev) && ev.Acted? && ev.id == id
    ensures id < |s.entries|
  {
  }

  /** Over every interleaving: taken out once, an entry is in neither map, then and for ever. */
  lemma {:induction false} TakenOutForGood(evs: seq<Event>, i: nat, id: Id)
    requires i < |evs| && evs[i].Acted? && evs[i].id == id && TakesOut(evs[i].action)
    ensures Exec(evs).Some? ==> id < |Exec(evs).value.entries| && Absent(Exec(evs).value.maps, id)
    decreases |evs|
  {
    if Exec(evs).Some? {
      hide *;
      var n := |evs| - 1;
      assert evs[..n + 1] == evs;
      ExecStep(evs, n);
      var s := Exec(evs[..n]).value;
      NextEntry(s, evs[n], id);
      if i >= n {
        ActedHere(s, id, evs[n]);
        TakenOut(s, id, evs[n].action);
      } else {
        TakenOutForGood(evs[..n], i, id);
        StaysOut(s, evs[n], id);
      }
    }
  }

  // ---- what can happen -------------------------------------------------------------------

  lemma Happens(evs: seq<Event>, s: Server, ev: Event) returns (more: seq<Event>, after: Server)
    requires Exec(evs) == Some(s) && Possible(s, ev)
    ensures more == evs + [ev] && Inv(s) && after == Next(s, ev) && Exec(more) == Some(after)
  {
    assert Inv(s);
    hide Inv, Next, Possible;
    more, after := evs + [ev], Next(s, ev);
    assert more[..|evs|] == evs;
  }

  /** all continues evs by actions of one entry alone. */
  ghost predicate GoesOn(evs: seq<Event>, all: seq<Event>, id: Id) {
    evs <= all && forall i :: |evs| <= i < |all| ==> all[i].Acted? && all[i].id == id
  }

  lemma GoesOnMore(evs: seq<Event>, a: Action, all: seq<Event>, id: Id)
    requires GoesOn(evs + [Acted(id, a)], all, id)
    ensures GoesOn(evs, all, id)
  {
    assert all[|evs|] == (evs + [Acted(id, a)])[|evs|];
    assert evs <= evs + [Acted(id, a)];
  }

  ghost predicate RestsIn(s: Server, id: Id) {
    id < |s.entries| && AtRest(s.entries[id])
  }

  /** Every interleaving can be continued, without any message, until an entry is at rest. */
  lemma {:induction false} ComesToRest(evs: seq<Event>, s: Server, id: Id) returns (all: seq<Event>, r: Server)
    requires Exec(evs) == Some(s) && id < |s.entries|
    ensures GoesOn(evs, all, id) && Exec(all) == Some(r) && RestsIn(r, id)
    decreases EntryRank(s.entries[id])
  {
    hide EntryRank, Inv, GoesOn, Exec, ForcedAct, Next, Possible;
    if AtRest(s.entries[id]) {
      all, r := evs, s;
      GoesOnRefl(evs, id);
    } else {
      var a :| ForcedAct(s.entries[id], a);
      hide *;
      ForcedIsPossible(s, id, a);
      var more, after := Happens(evs, s, Acted(id, a));
      ActRank(s, id, a);
      all, r := ComesToRest(more, after, id);
      GoesOnMore(evs, a, all, id);
    }
  }

  lemma GoesOnRefl(evs: seq<Event>, id: Id)
    ensures GoesOn(evs, evs, id)
  {
  }

  lemma ForcedIsPossible(s: Server, id: Id, a: Action)
    requires id < |s.entries| && ForcedAct(s.entries[id], a)
    ensures Possible(s, Acted(id, a))
  {
    hide Can;
  }

  lemma ActRank(s: Server, id: Id, a: Action)
    requires Inv(s) && Possible(s, Acted(id, a))
    ensures var r := Next(s, Acted(id, a));
      id < |r.entries| && EntryRank(r.entries[id]) < EntryRank(s.entries[id])
  {
    assert EntryInv(s.entries[id]);
    NextEntry(s, Acted(id, a), id);
    hide Inv, EntryInv, Next, EntryRank, Act;
    ActsRunOut(s.entries[id], a);
  }

  lemma Offered() returns (evs: seq<Event>, s: Server)
    ensures Exec(evs) == Some(s) && |s.entries| == 1 && Find(s.maps, "tag", "call") == Some(0)
    ensures s.entries[0] == NewEntry("tag", "call") && CallSteps(evs, 0) == []
  {
    hide Inv;
    CallStepsSnoc([], Invited("tag", "call"), 0);
    evs, s := Happens([], IDLE, Invited("tag", "call"));
  }

  lemma Answered() returns (evs: seq<Event>, s: Server)
    ensures Exec(evs) == Some(s) && |s.entries| == 1 && Find(s.maps, "tag", "call") == Some(0)
    ensures s.entries[0] ==
      NewEntry("tag", "call").(invite := Accepted, awaiter := AwaitingAck, watcher := AwaitingDone)
    ensures CallSteps(evs, 0) == []
  {
    hide Inv, Exec, CallSteps;
    evs, s := Offered();
    CallStepsSnoc(evs, Acted(0, Respond), 0);
    evs, s := Happens(evs, s, Acted(0, Respond));
  }

  /** An answer can fail, and an answered INVITE be cancelled, time out or be acknowledged either way. */
  lemma EveryAnswerHappens(a: Action) returns (evs: seq<Event>)
    requires a == RespondFails || a == TransactionCancel || a == AckTimeout || a == TakeAck(true) || a == TakeAck(false)
    ensures Exec(evs).Some? && Acted(0, a) in evs
  {
    hide Inv, Exec, Next, Act;
    var s;
    if a == RespondFails {
      evs, s := Offered();
    } else if a == TakeAck(false) {
      evs, s := Acknowledged();
    } else {
      evs, s := Answered();
    }
    evs, s := Happens(evs, s, Acted(0, a));
  }

  lemma Acknowledged() returns (evs: seq<Event>, s: Server)
    ensures Exec(evs) == Some(s) && |s.entries| == 1 && s.entries[0].awaiter.AwaitingAck? && s.entries[0].ackBuffered
  {
    hide Inv, Exec;
    evs, s := Answered();
    evs, s := Happens(evs, s, Requested(Ack, "tag", "call"));
  }

  /**
   The converse of running one call: every interleaving of a call that begins with its start and has
   no close from outside is what some dialog does to its call.
   */
  lemma {:induction false} EveryCallRuns(steps: seq<C.Step>) returns (evs: seq<Event>, s: Server)
    requires C.Exec(steps).Some? && steps != [] && steps[0] == C.Start
    requires forall i :: 0 < i < |steps| ==> !steps[i].Start? && !steps[i].Close?
    ensures Exec(evs) == Some(s) && CallSteps(evs, 0) == steps
    ensures |s.entries| == 1 && Some(s.entries[0].call) == C.Exec(steps)
    decreases |steps|
  {
    var n := |steps| - 1;
    if n == 0 {
      evs, s := Started();
      assert steps == [C.Start];
    } else {
      hide Exec, Inv, CallSteps;
      evs, s := EveryCallRuns(steps[..n]);
      evs, s := StepTaken(evs, s, steps[n]);
      SplitLast([], steps);
    }
  }

  lemma StepTaken(evs: seq<Event>, s: Server, step: C.Step) returns (more: seq<Event>, after: Server)
    requires Exec(evs) == Some(s) && |s.entries| == 1 && C.Enabled(s.entries[0].call, step)
    requires !step.Start? && !step.Close?
    ensures Exec(more) == Some(after) && |after.entries| == 1
    ensures after.entries[0].call == C.Do(s.entries[0].call, step)
    ensures CallSteps(more, 0) == CallSteps(evs, 0) + [step]
  {
    hide Exec, Inv, C.Enabled, C.Do, CallSteps;
    more, after := Happens(evs, s, Acted(0, CallStep(step)));
    assert more[|evs|] == Acted(0, CallStep(step)) && more[..|evs| + 1] == more && more[..|evs|] == evs;
    StepAppended(more, |evs|, 0, step);
  }

  lemma Started() returns (evs: seq<Event>, s: Server)
    ensures Exec(evs) == Some(s) && CallSteps(evs, 0) == [C.Start]
    ensures |s.entries| == 1 && Some(s.entries[0].call) == C.Exec([C.Start])
  {
    hide Inv, Exec, CallSteps;
    evs, s := Answered();
    CallStepsSnoc(evs, Acted(0, TakeAck(true)), 0);
    evs, s := Happens(evs, s, Acted(0, TakeAck(true)));
    C.ExecSnoc([], C.Start);
    assert [] + [C.Start] == [C.Start];
  }

  lemma CallStepsSnoc(evs: seq<Event>, ev: Event, id: Id)
    ensures CallSteps(evs + [ev], id) == CallSteps(evs, id) +
      if ev.Acted? && ev.id == id && CallPart(ev.action).Some? then [CallPart(ev.action).value] else []
    ensures CallSteps([], id) == []
  {
    assert (evs + [ev])[..|evs|] == evs;
    hide CallPart;
  }

  /** Wherever the relay's BYE is sent, its send may fail. */
  lemma SendMayFail(evs: seq<Event>, id: Id)
    ensures Exec(evs + [Acted(id, WatcherSends(true))]).Some? <==> Exec(evs + [Acted(id, WatcherSends(false))]).Some?
  {
    var a, b := Acted(id, WatcherSends(true)), Acted(id, WatcherSends(false));
    ExecMore(evs, a);
    ExecMore(evs, b);
    hide Exec, Inv;
    if Exec(evs).Some? {
      assert Possible(Exec(evs).value, a) <==> Possible(Exec(evs).value, b);
    }
  }

  lemma ExecMore(evs: seq<Event>, ev: Event)
    ensures Exec(evs + [ev]).Some? <==> Exec(evs).Some? && Possible(Exec(evs).value, ev)
  {
    assert (evs + [ev])[..|evs|] == evs;
    hide Inv, Next, Possible;
  }
}
