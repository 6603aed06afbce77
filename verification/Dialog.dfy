/**
 SIP dialogs of internal/sip/server.go: the two entry maps, and the interleavings of INVITE, ACK,
 BYE, CANCEL, the ACK timeout, the Done watcher and server shutdown over any number of entries.
 */
module Dialog {
  import opened Common
  import C = Call

  // ---- the maps --------------------------------------------------------------------------

  /** The two indexes of live entries; T identifies an entry. */
  datatype Maps<T> = Maps(byTag: map<string, T>, byCall: map<string, T>)

  function StoreIn<T>(m: Maps<T>, e: T, tag: string, callID: string): Maps<T> {
    Maps(m.byTag[tag := e], m.byCall[callID := e])
  }

  function RemoveFrom<T(==)>(m: Maps<T>, e: T, tag: string, callID: string): Maps<T> {
    Maps(if tag in m.byTag && m.byTag[tag] == e then m.byTag - {tag} else m.byTag,
         if callID in m.byCall && m.byCall[callID] == e then m.byCall - {callID} else m.byCall)
  }

  /** The To tag first, if it names an entry; otherwise the Call-ID. */
  function Find<T>(m: Maps<T>, toTag: string, callID: string): Option<T> {
    if toTag != "" && toTag in m.byTag then Some(m.byTag[toTag])
    else if callID != "" && callID in m.byCall then Some(m.byCall[callID])
    else None
  }

  ghost predicate Absent<T>(m: Maps<T>, e: T) {
    && (forall t :: t in m.byTag ==> m.byTag[t] != e)
    && (forall c :: c in m.byCall ==> m.byCall[c] != e)
  }

  /** Removing an entry never removes another, even one that took over its tag or Call-ID. */
  lemma RemoveSparesOthers<T>(m: Maps<T>, e: T, tag: string, callID: string, other: T)
    requires other != e
    ensures var r := RemoveFrom(m, e, tag, callID);
      && (forall t :: t in m.byTag && m.byTag[t] == other <==> t in r.byTag && r.byTag[t] == other)
      && (forall c :: c in m.byCall && m.byCall[c] == other <==> c in r.byCall && r.byCall[c] == other)
      && (Absent(m, other) <==> Absent(r, other))
  {
  }

  /** A second INVITE may reuse a Call-ID: the tag still finds the first entry, the Call-ID the second. */
  lemma ReusedCallID<T>(m: Maps<T>, first: T, second: T, tag1: string, tag2: string, callID: string)
    requires first != second && tag1 != tag2 && tag1 != "" && tag2 != "" && callID != ""
    ensures var both := StoreIn(StoreIn(m, first, tag1, callID), second, tag2, callID);
      && Find(both, tag1, callID) == Some(first)
      && Find(both, tag2, callID) == Find(both, "", callID) == Some(second)
      && (forall tag :: tag !in m.byTag && tag != tag1 ==> Find(both, tag, callID) == Some(second))
      && Find(RemoveFrom(both, first, tag1, callID), "", callID) == Some(second)
      && Find(RemoveFrom(both, second, tag2, callID), tag1, callID) == Some(first)
      && Find(RemoveFrom(both, second, tag2, callID), "", callID) == None
  {
  }

  /** Entries are only ever filed under their own tag and Call-ID. */
  ghost predicate FiledUnder<T(!new)>(m: Maps<T>, e: T, tag: string, callID: string) {
    && (forall t :: t in m.byTag && m.byTag[t] == e ==> t == tag)
    && (forall c :: c in m.byCall && m.byCall[c] == e ==> c == callID)
  }

  lemma RemovedIsAbsent<T(!new)>(m: Maps<T>, e: T, tag: string, callID: string)
    requires FiledUnder(m, e, tag, callID)
    ensures Absent(RemoveFrom(m, e, tag, callID), e)
  {
  }

  // ---- one entry -------------------------------------------------------------------------

  /** e.close: a blocking once, with the position inside whichever body runs. */
  datatype Once = Unused | ByeMustClose | ByeMustRemove | WatcherMustSend | WatcherMustRemove | Used(byWatcher: bool)

  datatype Invite = Stored | MustCloseCall | Accepted | Refused

  datatype Awaiter = NoAwaiter | AwaitingAck | AwaiterMustRemove | AwaiterDone

  datatype Watcher = NoWatcher | AwaitingDone | Chose(bye: bool) | InBody | Gone

  datatype Entry = Entry(
    tag: string, callID: string,
    call: C.CallState,
    close: Once,
    invite: Invite,
    awaiter: Awaiter,
    watcher: Watcher,
    ackBuffered: bool,
    pendingByes: nat,
    pendingCancels: nat,
    pendingRemoves: nat,
    mustShutDown: bool,
    byesSent: nat,
    byeBodyRan: bool)

  function NewEntry(tag: string, callID: string): Entry {
    Entry(tag, callID, C.NEW, Unused, Stored, NoAwaiter, NoWatcher, false, 0, 0, 0, false, 0, false)
  }

  datatype Action =
    | Respond | RespondFails | RefusedCloses
    | TakeAck(fromTransaction: bool) | TransactionCancel | AckTimeout | AwaiterRemoves
    | ByeEnters | ByeCloses | ByeRemoves | ByeSkips
    | CancelCloses | CancelRemoves
    | WatcherWakes | WatcherEnters | WatcherSends(sent: bool) | WatcherRemovesInBody
    | WatcherSkips | WatcherRemoves
    | ShutdownCloses
    | CallStep(step: C.Step)

  predicate Can(e: Entry, a: Action) {
    match a
    case Respond => e.invite.Stored?
    case RespondFails => e.invite.Stored?
    case RefusedCloses => e.invite.MustCloseCall?
    case TakeAck(fromTransaction) => e.awaiter.AwaitingAck? && (fromTransaction || e.ackBuffered)
    case TransactionCancel => e.awaiter.AwaitingAck?
    case AckTimeout => e.awaiter.AwaitingAck?
    case AwaiterRemoves => e.awaiter.AwaiterMustRemove?
    case ByeEnters => e.pendingByes > 0 && e.close.Unused?
    case ByeCloses => e.close.ByeMustClose?
    case ByeRemoves => e.close.ByeMustRemove?
    case ByeSkips => e.pendingByes > 0 && e.close.Used?
    case CancelCloses => e.pendingCancels > 0
    case CancelRemoves => e.pendingRemoves > 0
    case WatcherWakes => e.watcher.AwaitingDone? && C.IsDone(e.call)
    case WatcherEnters => e.watcher == Chose(true) && e.close.Unused?
    case WatcherSends(_) => e.close.WatcherMustSend?
    case WatcherRemovesInBody => e.close.WatcherMustRemove?
    case WatcherSkips => e.watcher == Chose(true) && e.close.Used?
    case WatcherRemoves => e.watcher == Chose(false)
    case ShutdownCloses => e.mustShutDown
    case CallStep(step) => !step.Start? && !step.Close? && C.Enabled(e.call, step)
  }

  /** The call operation an action performs, if any. */
  function CallPart(a: Action): Option<C.Step> {
    match a
    case RefusedCloses => Some(C.Close(C.NoReason))
    case TakeAck(_) => Some(C.Start)
    case TransactionCancel => Some(C.Close(C.UserEnded))
    case AckTimeout => Some(C.Close(C.NoReason))
    case ByeCloses => Some(C.Close(C.UserEnded))
    case CancelCloses => Some(C.Close(C.NoReason))
    case ShutdownCloses => Some(C.Close(C.NoReason))
    case CallStep(step) => Some(step)
    case _ => None
  }

  predicate Removes(a: Action) {
    || a.RespondFails? || a.AwaiterRemoves? || a.ByeRemoves? || a.CancelRemoves?
    || a.WatcherRemovesInBody? || a.WatcherRemoves?
  }

  /** The entry's own bookkeeping, besides the call. */
  function Bookkeep(e: Entry, a: Action): Entry
    requires Can(e, a)
  {
    match a
    case Respond => e.(invite := Accepted, awaiter := AwaitingAck, watcher := AwaitingDone)
    case RespondFails => e.(invite := MustCloseCall)
    case RefusedCloses => e.(invite := Refused)
    case TakeAck(_) => e.(awaiter := AwaiterDone)
    case TransactionCancel => e.(awaiter := AwaiterMustRemove)
    case AckTimeout => e.(awaiter := AwaiterMustRemove)
    case AwaiterRemoves => e.(awaiter := AwaiterDone)
    case ByeEnters => e.(pendingByes := e.pendingByes - 1, close := ByeMustClose, byeBodyRan := true)
    case ByeCloses => e.(close := ByeMustRemove)
    case ByeRemoves => e.(close := Used(false))
    case ByeSkips => e.(pendingByes := e.pendingByes - 1)
    case CancelCloses => e.(pendingCancels := e.pendingCancels - 1, pendingRemoves := e.pendingRemoves + 1)
    case CancelRemoves => e.(pendingRemoves := e.pendingRemoves - 1)
    case WatcherWakes => e.(watcher := Chose(C.ShouldSendBYE(e.call.f.reason)))
    case WatcherEnters => e.(close := WatcherMustSend, watcher := InBody)
    case WatcherSends(sent) => e.(close := WatcherMustRemove, byesSent := e.byesSent + if sent then 1 else 0)
    case WatcherRemovesInBody => e.(close := Used(true), watcher := Gone)
    case WatcherSkips => e.(watcher := Gone)
    case WatcherRemoves => e.(watcher := Gone)
    case ShutdownCloses => e.(mustShutDown := false)
    case CallStep(_) => e
  }

  lemma CallPartEnabled(e: Entry, a: Action)
    requires Can(e, a)
    ensures CallPart(a).Some? ==> C.Enabled(e.call, CallPart(a).value)
  {
  }

  function Act(e: Entry, a: Action): Entry
    requires Can(e, a)
  {
    CallPartEnabled(e, a);
    match CallPart(a)
    case None => Bookkeep(e, a)
    case Some(step) => Bookkeep(e, a).(call := C.Do(e.call, step))
  }

  ghost predicate CloseInv(e: Entry) {
    && (e.watcher.InBody? <==> e.close.WatcherMustSend? || e.close.WatcherMustRemove?)
    && (e.close == Used(true) ==> e.watcher.Gone?)
    && (e.byeBodyRan <==> e.close.ByeMustClose? || e.close.ByeMustRemove? || e.close == Used(false))
    && e.byesSent <= 1
    && (e.byesSent == 1 ==> e.close.WatcherMustRemove? || e.close == Used(true))
    && (e.invite.Accepted? <==> !e.watcher.NoWatcher?)
  }

  ghost predicate DecisionInv(e: Entry) {
    && C.Inv(e.call)
    && (e.watcher.Chose? || e.watcher.InBody? || e.watcher.Gone? ==> C.IsDone(e.call))
    && (e.watcher.Chose? ==> e.watcher.bye == C.ShouldSendBYE(e.call.f.reason))
    && (e.watcher.InBody? || e.close == Used(true) ==> C.ShouldSendBYE(e.call.f.reason))
    && (e.watcher.Gone? && C.ShouldSendBYE(e.call.f.reason) ==> e.close.Used?)
  }

  /** An accepted INVITE has an awaiter, which starts the call or leaves it closed. */
  ghost predicate AwaiterInv(e: Entry) {
    && (e.invite.Accepted? <==> !e.awaiter.NoAwaiter?)
    && (e.awaiter.NoAwaiter? || e.awaiter.AwaitingAck? ==> !e.call.f.started)
    && (e.awaiter.AwaiterDone? ==> e.call.f.started || e.call.f.closed)
  }

  /** Some handler has got past its close of the call. */
  predicate PastClose(e: Entry) {
    || e.close.ByeMustRemove? || e.close == Used(false) || e.pendingRemoves > 0
    || e.awaiter.AwaiterMustRemove? || e.invite.Refused?
  }

  ghost predicate EntryInv(e: Entry) {
    CloseInv(e) && DecisionInv(e) && AwaiterInv(e) && (PastClose(e) ==> e.call.f.closed)
  }

  lemma NewEntryInv(tag: string, callID: string)
    ensures EntryInv(NewEntry(tag, callID))
  {
  }

  /** An action is its bookkeeping and its step of the call. */
  lemma ActIs(e: Entry, a: Action)
    requires Can(e, a)
    ensures CallPart(a).Some? ==> C.Enabled(e.call, CallPart(a).value)
    ensures Act(e, a) ==
      Bookkeep(e, a).(call := if CallPart(a).Some? then C.Do(e.call, CallPart(a).value) else e.call)
  {
    CallPartEnabled(e, a);
    BookkeepSparesCall(e, a);
    hide Can, Bookkeep, CallPart, C.Enabled, C.Do;
  }

  lemma BookkeepSparesCall(e: Entry, a: Action)
    requires Can(e, a)
    ensures Bookkeep(e, a).call == e.call && Bookkeep(e, a).tag == e.tag && Bookkeep(e, a).callID == e.callID
  {
    hide Can, C.ShouldSendBYE;
  }

  predicate OfWatcher(a: Action) {
    || a.WatcherWakes? || a.WatcherEnters? || a.WatcherSends? || a.WatcherRemovesInBody?
    || a.WatcherSkips? || a.WatcherRemoves?
  }

  lemma WatcherKeepsCloseInv(e: Entry, a: Action)
    requires CloseInv(e) && Can(e, a) && OfWatcher(a)
    ensures CloseInv(Bookkeep(e, a))
  {
    hide C.Enabled, C.IsDone, C.ShouldSendBYE;
    if a.WatcherSends? || a.WatcherRemovesInBody? {
      assert CloseInv(Bookkeep(e, a));
    }
  }

  lemma HandlerKeepsCloseInv(e: Entry, a: Action)
    requires CloseInv(e) && Can(e, a) && !OfWatcher(a)
    ensures CloseInv(Bookkeep(e, a))
  {
    hide C.Enabled, C.IsDone, C.ShouldSendBYE;
  }

  lemma BookkeepKeepsCloseInv(e: Entry, a: Action)
    requires CloseInv(e) && Can(e, a)
    ensures CloseInv(Bookkeep(e, a))
  {
    if OfWatcher(a) {
      WatcherKeepsCloseInv(e, a);
    } else {
      HandlerKeepsCloseInv(e, a);
    }
    hide *;
  }

  lemma ActKeepsCloseInv(e: Entry, a: Action)
    requires EntryInv(e) && Can(e, a)
    ensures CloseInv(Act(e, a))
  {
    BookkeepKeepsCloseInv(e, a);
    ActIs(e, a);
    hide DecisionInv, AwaiterInv, Can, Act, Bookkeep, CallPart, C.Do;
  }

  lemma ActKeepsDecisionInv(e: Entry, a: Action)
    requires EntryInv(e) && Can(e, a)
    ensures DecisionInv(Act(e, a))
  {
    CallPartEnabled(e, a);
    if CallPart(a).Some? {
      C.StepKeepsInv(e.call, CallPart(a).value);
      C.ReasonWriteOnce(e.call, CallPart(a).value);
    }
    hide C.Inv, C.Do, C.Enabled;
  }

  predicate Closes(a: Action) {
    CallPart(a).Some? && CallPart(a).value.Close?
  }

  /** The awaiter moves on only by an action that starts or closes the call. */
  lemma BookkeepAwaiter(e: Entry, a: Action)
    requires AwaiterInv(e) && Can(e, a)
    ensures var b := Bookkeep(e, a);
      && (b.invite.Accepted? <==> !b.awaiter.NoAwaiter?)
      && (b.awaiter.NoAwaiter? || b.awaiter.AwaitingAck? ==>
            !e.call.f.started && (CallPart(a).None? || !CallPart(a).value.Start?))
      && (b.awaiter.AwaiterDone? ==>
            e.call.f.started || e.call.f.closed || a.TakeAck? || e.awaiter.AwaiterMustRemove?)
  {
    hide C.Enabled, C.IsDone, C.ShouldSendBYE;
  }

  lemma ActKeepsAwaiterInv(e: Entry, a: Action)
    requires EntryInv(e) && Can(e, a)
    ensures AwaiterInv(Act(e, a))
  {
    BookkeepAwaiter(e, a);
    ActIs(e, a);
    assert e.awaiter.AwaiterMustRemove? ==> e.call.f.closed;
    assert a.TakeAck? ==> CallPart(a) == Some(C.Start);
    hide CloseInv, Can, Act, Bookkeep, PastClose, CallPart;
    if CallPart(a).Some? {
      C.FieldsGrow(e.call, CallPart(a).value);
    }
    hide DecisionInv, C.Inv, C.Do, C.Enabled;
  }

  /** A handler gets past its close only by closing. */
  lemma BookkeepPastClose(e: Entry, a: Action)
    requires Can(e, a) && PastClose(Bookkeep(e, a))
    ensures PastClose(e) || Closes(a)
  {
    hide C.Enabled, C.IsDone, C.ShouldSendBYE;
  }

  lemma ActPastClose(e: Entry, a: Action)
    requires EntryInv(e) && Can(e, a)
    ensures PastClose(Act(e, a)) ==> Act(e, a).call.f.closed
    ensures Closes(a) || e.call.f.closed ==> Act(e, a).call.f.closed
    ensures e.call.f.started ==> Act(e, a).call.f.started
  {
    if PastClose(Bookkeep(e, a)) {
      BookkeepPastClose(e, a);
    }
    ActIs(e, a);
    hide CloseInv, AwaiterInv, Can, Act, Bookkeep, CallPart;
    assert PastClose(Act(e, a)) ==> PastClose(Bookkeep(e, a));
    if CallPart(a).Some? {
      C.FieldsGrow(e.call, CallPart(a).value);
    }
    hide DecisionInv, C.Inv, C.Do, C.Enabled, PastClose;
  }

  lemma ActKeepsEntryInv(e: Entry, a: Action)
    requires EntryInv(e) && Can(e, a)
    ensures EntryInv(Act(e, a))
  {
    ActKeepsCloseInv(e, a);
    ActKeepsDecisionInv(e, a);
    ActKeepsAwaiterInv(e, a);
    ActPastClose(e, a);
    hide CloseInv, DecisionInv, AwaiterInv, PastClose, Closes, Act, Can;
  }

  predicate Turned(invite: Invite) {
    invite.MustCloseCall? || invite.Refused?
  }

  /** What later states keep of an entry. */
  ghost predicate Persists(early: Entry, late: Entry) {
    && late.tag == early.tag && late.callID == early.callID
    && (early.watcher.Gone? ==> late.watcher.Gone?)
    && (early.close.Used? ==> late.close == early.close)
    && (Turned(early.invite) ==> Turned(late.invite))
    && (early.byeBodyRan ==> late.byeBodyRan)
    && (C.IsDone(early.call) ==> C.IsDone(late.call) && late.call.f.reason == early.call.f.reason)
    && (early.call.published.Some? ==> late.call.published == early.call.published)
    && early.byesSent <= late.byesSent
  }

  lemma BookkeepKeepsClosing(e: Entry, a: Action)
    requires CloseInv(e) && Can(e, a)
    ensures e.watcher.Gone? ==> Bookkeep(e, a).watcher.Gone?
    ensures e.close.Used? ==> Bookkeep(e, a).close == e.close
  {
    assert a.Respond? ==> e.watcher.NoWatcher?;
    hide CloseInv, C.Enabled, C.IsDone, C.ShouldSendBYE;
  }

  lemma BookkeepPersists(e: Entry, a: Action)
    requires CloseInv(e) && Can(e, a)
    ensures Persists(e, Bookkeep(e, a))
  {
    BookkeepSparesCall(e, a);
    BookkeepKeepsClosing(e, a);
    hide CloseInv, C.Enabled, C.IsDone, C.ShouldSendBYE;
    assert Turned(e.invite) ==> Turned(Bookkeep(e, a).invite);
    assert e.byeBodyRan ==> Bookkeep(e, a).byeBodyRan;
    assert e.byesSent <= Bookkeep(e, a).byesSent;
    hide Bookkeep, Turned;
  }

  lemma ActPersists(e: Entry, a: Action)
    requires EntryInv(e) && Can(e, a)
    ensures Persists(e, Act(e, a))
  {
    BookkeepPersists(e, a);
    ActIs(e, a);
    hide CloseInv, AwaiterInv, Can, Act, Bookkeep;
    if CallPart(a).Some? {
      C.ReasonWriteOnce(e.call, CallPart(a).value);
    }
    hide DecisionInv, C.Do, C.Enabled, CallPart, C.IsDone;
  }

  predicate ByeHeard(e: Entry) {
    e.pendingByes > 0 || !e.close.Unused?
  }

  predicate CancelHeard(e: Entry) {
    e.pendingCancels > 0 || e.call.f.closed
  }

  predicate ShutdownHeard(e: Entry) {
    e.mustShutDown || e.call.f.closed
  }

  /** No message that reached an entry is forgotten. */
  ghost predicate Heeds(early: Entry, late: Entry) {
    && (ByeHeard(early) ==> ByeHeard(late))
    && (CancelHeard(early) ==> CancelHeard(late))
    && (ShutdownHeard(early) ==> ShutdownHeard(late))
    && (early.ackBuffered ==> late.ackBuffered)
  }

  lemma BookkeepHeeds(e: Entry, a: Action)
    requires Can(e, a)
    ensures ByeHeard(e) ==> ByeHeard(Bookkeep(e, a))
    ensures e.pendingCancels > 0 ==> Bookkeep(e, a).pendingCancels > 0 || Closes(a)
    ensures e.mustShutDown ==> Bookkeep(e, a).mustShutDown || Closes(a)
    ensures e.ackBuffered ==> Bookkeep(e, a).ackBuffered
  {
    hide C.Enabled, C.IsDone, C.ShouldSendBYE;
  }

  lemma ActHeeds(e: Entry, a: Action)
    requires EntryInv(e) && Can(e, a)
    ensures Heeds(e, Act(e, a))
  {
    BookkeepHeeds(e, a);
    ActPastClose(e, a);
    ActIs(e, a);
    hide EntryInv, Can, Act, Bookkeep, Closes, CallPart, C.Do, C.Enabled, PastClose;
  }

  // ---- the server ------------------------------------------------------------------------

  type Id = nat

  /** Entries are numbered in order of arrival; the maps refer to them by number. */
  datatype Server = Server(entries: seq<Entry>, maps: Maps<Id>, stopped: bool)

  const IDLE := Server([], Maps(map[], map[]), false)

  datatype Request = Ack | Bye | Cancel

  datatype Event =
    | Invited(tag: string, callID: string)
    | Requested(request: Request, toTag: string, callID: string)
    | Acted(id: Id, action: Action)
    | ShutDown

  predicate Possible(s: Server, ev: Event) {
    ev.Acted? ==> ev.id < |s.entries| && Can(s.entries[ev.id], ev.action)
  }

  /** A handler that has looked its entry up holds on to it from then on. */
  function Deliver(e: Entry, request: Request): Entry {
    match request
    case Ack => e.(ackBuffered := true)
    case Bye => e.(pendingByes := e.pendingByes + 1)
    case Cancel => e.(pendingCancels := e.pendingCancels + 1)
  }

  function Next(s: Server, ev: Event): Server
    requires Possible(s, ev) && MapsInRange(s)
  {
    match ev
    case Invited(tag, callID) =>
      Server(s.entries + [NewEntry(tag, callID)], StoreIn(s.maps, |s.entries|, tag, callID), s.stopped)
    case Requested(request, toTag, callID) =>
      (match Find(s.maps, toTag, callID)
       case None => s
       case Some(id) => s.(entries := s.entries[id := Deliver(s.entries[id], request)]))
    case Acted(id, a) =>
      var e := s.entries[id];
      Server(s.entries[id := Act(e, a)],
             if Removes(a) then RemoveFrom(s.maps, id, e.tag, e.callID) else s.maps,
             s.stopped)
    case ShutDown =>
      if s.stopped then s
      else Server(seq(|s.entries|, i requires 0 <= i < |s.entries| => Mark(s.entries[i], i in s.maps.byTag.Values)),
                  Maps(map[], map[]), true)
  }

  function Mark(e: Entry, live: bool): Entry {
    e.(mustShutDown := e.mustShutDown || live)
  }

  predicate MapsInRange(s: Server) {
    && (forall t :: t in s.maps.byTag ==> s.maps.byTag[t] < |s.entries|)
    && (forall c :: c in s.maps.byCall ==> s.maps.byCall[c] < |s.entries|)
  }

  ghost predicate Filed(s: Server) {
    forall id: Id :: id < |s.entries| ==> FiledUnder(s.maps, id, s.entries[id].tag, s.entries[id].callID)
  }

  ghost predicate EntriesInv(s: Server) {
    forall id: Id :: id < |s.entries| ==> EntryInv(s.entries[id])
  }

  /** The watcher finished, a close body ran, or the INVITE could not be answered. */
  predicate Finished(e: Entry) {
    e.watcher.Gone? || e.close.Used? || Turned(e.invite)
  }

  /** A finished entry is in neither map. */
  ghost predicate CleanedUp(s: Server) {
    forall id: Id :: id < |s.entries| && Finished(s.entries[id]) ==> Absent(s.maps, id)
  }

  ghost predicate Inv(s: Server) {
    MapsInRange(s) && Filed(s) && EntriesInv(s) && CleanedUp(s)
  }

  lemma IdleInv()
    ensures Inv(IDLE)
  {
  }

  lemma ActKeepsInv(s: Server, id: Id, a: Action)
    requires Inv(s) && Possible(s, Acted(id, a))
    ensures Inv(Next(s, Acted(id, a)))
  {
    ActKeepsEntryInv(s.entries[id], a);
    ActKeepsFiling(s, id, a);
    hide Act, Can, EntryInv, Removes, RemoveFrom, Filed, CleanedUp, MapsInRange;
  }

  lemma ActKeepsKeys(e: Entry, a: Action)
    requires Can(e, a)
    ensures Act(e, a).tag == e.tag && Act(e, a).callID == e.callID
  {
    ActIs(e, a);
    BookkeepSparesCall(e, a);
    hide Can, Act, Bookkeep;
  }

  lemma ActKeepsFiling(s: Server, id: Id, a: Action)
    requires Inv(s) && Possible(s, Acted(id, a))
    ensures var r := Next(s, Acted(id, a)); MapsInRange(r) && Filed(r) && CleanedUp(r)
  {
    var e := s.entries[id];
    ActKeepsKeys(e, a);
    ActFinishes(e, a);
    RemovedIsAbsent(s.maps, id, e.tag, e.callID);
    hide Act, Can, EntryInv, Finished, Turned, C.IsDone, Removes;
    var r := Next(s, Acted(id, a));
    forall other: Id | other < |r.entries|
      ensures FiledUnder(r.maps, other, r.entries[other].tag, r.entries[other].callID)
      ensures Finished(r.entries[other]) ==> Absent(r.maps, other)
    {
      if other != id && Removes(a) {
        RemoveSparesOthers(s.maps, id, e.tag, e.callID, other);
      }
    }
  }

  /** An action that finishes an entry removes it in the same step, unless it was finished before. */
  lemma ActFinishes(e: Entry, a: Action)
    requires EntryInv(e) && Can(e, a)
    ensures Finished(Act(e, a)) ==> Removes(a) || Finished(e)
  {
    hide C.Inv, C.Do, C.Enabled;
  }

  lemma InviteKeepsInv(s: Server, tag: string, callID: string)
    requires Inv(s)
    ensures Inv(Next(s, Invited(tag, callID)))
  {
    var id := |s.entries|;
    var r := Next(s, Invited(tag, callID));
    NewEntryInv(tag, callID);
    hide EntryInv;
    forall other: Id | other < |r.entries|
      ensures FiledUnder(r.maps, other, r.entries[other].tag, r.entries[other].callID)
      ensures Finished(r.entries[other]) ==> Absent(r.maps, other)
    {
      if other < id {
        assert r.entries[other] == s.entries[other];
      }
    }
  }

  lemma RequestKeepsInv(s: Server, request: Request, toTag: string, callID: string)
    requires Inv(s)
    ensures Inv(Next(s, Requested(request, toTag, callID)))
  {
    match Find(s.maps, toTag, callID)
    case None =>
    case Some(id) =>
      var r := Next(s, Requested(request, toTag, callID));
      assert EntryInv(r.entries[id]);
      hide CloseInv, DecisionInv, AwaiterInv;
  }

  lemma MarkKeepsInv(e: Entry, live: bool)
    ensures EntryInv(Mark(e, live)) == EntryInv(e)
  {
    hide C.Inv;
  }

  lemma ShutDownKeepsEntries(s: Server)
    requires Inv(s)
    ensures EntriesInv(Next(s, ShutDown))
  {
    var r := Next(s, ShutDown);
    hide EntryInv, Mark, Filed, CleanedUp;
    forall id: Id | id < |r.entries|
      ensures EntryInv(r.entries[id])
    {
      assert EntryInv(s.entries[id]);
      MarkKeepsInv(s.entries[id], id in s.maps.byTag.Values);
    }
  }

  lemma ShutDownKeepsInv(s: Server)
    requires Inv(s)
    ensures Inv(Next(s, ShutDown))
  {
    ShutDownKeepsEntries(s);
    hide EntriesInv, Mark, Finished;
  }

  lemma NextKeepsInv(s: Server, ev: Event)
    requires Inv(s) && Possible(s, ev)
    ensures Inv(Next(s, ev))
  {
    hide Inv, Next, Possible;
    match ev
    case Invited(tag, callID) => InviteKeepsInv(s, tag, callID);
    case Requested(request, toTag, callID) => RequestKeepsInv(s, request, toTag, callID);
    case Acted(id, a) => ActKeepsInv(s, id, a);
    case ShutDown => ShutDownKeepsInv(s);
  }

  /** Entries are only ever added, and each carries over what Persists and Heeds say. */
  ghost predicate Extends(early: Server, late: Server) {
    && |early.entries| <= |late.entries|
    && forall id: Id :: id < |early.entries| ==> Carries(early.entries[id], late.entries[id])
  }

  ghost predicate Carries(early: Entry, late: Entry) {
    Persists(early, late) && Heeds(early, late)
  }

  lemma ArrivalCarries(e: Entry, request: Request, live: bool)
    ensures Carries(e, e) && Carries(e, Deliver(e, request)) && Carries(e, Mark(e, live))
  {
  }

  lemma CarriesTransitive(a: Entry, b: Entry, c: Entry)
    ensures Carries(a, b) && Carries(b, c) ==> Carries(a, c)
  {
    hide ByeHeard, CancelHeard, ShutdownHeard, Turned, C.IsDone;
  }

  lemma NextExtends(s: Server, ev: Event)
    requires Inv(s) && Possible(s, ev)
    ensures Extends(s, Next(s, ev))
  {
    if ev.Acted? {
      ActPersists(s.entries[ev.id], ev.action);
      ActHeeds(s.entries[ev.id], ev.action);
      assert Carries(s.entries[ev.id], Act(s.entries[ev.id], ev.action));
    }
    var r := Next(s, ev);
    assert MapsInRange(s);
    hide Act, Can, EntryInv, Carries, Deliver, Mark, CleanedUp, Filed, RemoveFrom, StoreIn, Removes;
    forall id: Id | id < |s.entries|
      ensures Carries(s.entries[id], r.entries[id])
    {
      ArrivalCarries(s.entries[id], if ev.Requested? then ev.request else Ack, id in s.maps.byTag.Values);
    }
  }

  lemma ExtendsTransitive(a: Server, b: Server, c: Server)
    ensures Extends(a, a)
    ensures Extends(a, b) && Extends(b, c) ==> Extends(a, c)
  {
    hide Carries;
    forall id: Id | id < |a.entries|
      ensures Carries(a.entries[id], a.entries[id])
    {
      ArrivalCarries(a.entries[id], Ack, false);
    }
    if Extends(a, b) && Extends(b, c) {
      forall id: Id | id < |a.entries|
        ensures Carries(a.entries[id], c.entries[id])
      {
        CarriesTransitive(a.entries[id], b.entries[id], c.entries[id]);
      }
    }
  }

  // ---- every interleaving ----------------------------------------------------------------

  /** The server after an interleaving of events, or None if it is not one. */
  ghost function Exec(evs: seq<Event>): (r: Option<Server>)
    ensures r.Some? ==> Inv(r.value)
    decreases |evs|
  {
    IdleInv();
    if evs == [] then Some(IDLE)
    else
      var ev := evs[|evs| - 1];
      match Exec(evs[..|evs| - 1]) {
        case None => None
        case Some(s) =>
          if Possible(s, ev) then
            NextKeepsInv(s, ev);
            Some(Next(s, ev))
          else None
      }
  }

  lemma {:induction false} History(evs: seq<Event>, i: nat)
    requires i <= |evs| && Exec(evs).Some?
    ensures Exec(evs[..i]).Some? && Extends(Exec(evs[..i]).value, Exec(evs).value)
    decreases |evs|
  {
    var n := |evs| - 1;
    if i == |evs| {
      assert evs[..i] == evs;
      hide Exec;
      ExtendsTransitive(Exec(evs).value, Exec(evs).value, Exec(evs).value);
    } else {
      History(evs[..n], i);
      assert evs[..n][..i] == evs[..i];
      hide Inv, Extends, Next, Possible;
      NextExtends(Exec(evs[..n]).value, evs[n]);
      ExtendsTransitive(Exec(evs[..i]).value, Exec(evs[..n]).value, Exec(evs).value);
    }
  }

  ghost predicate GoneForGood(early: Server, late: Server, id: Id) {
    id < |early.entries| && Finished(early.entries[id]) ==>
      && id < |late.entries| && Finished(late.entries[id])
      && Absent(early.maps, id) && Absent(late.maps, id)
  }

  /**
   Once an entry's watcher or close body has finished, the entry is in neither map, then and in
   every later state, whatever other entries reuse its tag or Call-ID.
   */
  lemma FinishedNeverReturns(evs: seq<Event>, i: nat, id: Id)
    requires i <= |evs|
    ensures Exec(evs).Some? ==>
      Exec(evs[..i]).Some? && GoneForGood(Exec(evs[..i]).value, Exec(evs).value, id)
  {
    if Exec(evs).Some? {
      History(evs, i);
      var early, late := Exec(evs[..i]).value, Exec(evs).value;
      hide Exec, EntryInv, Filed;
      if id < |early.entries| && Finished(early.entries[id]) {
        assert Carries(early.entries[id], late.entries[id]);
      }
    }
  }

  /** The steps an interleaving takes on the call of one entry. */
  function CallSteps(evs: seq<Event>, id: Id): seq<C.Step> {
    if evs == [] then []
    else
      var ev := evs[|evs| - 1];
      CallSteps(evs[..|evs| - 1], id) +
        if ev.Acted? && ev.id == id && CallPart(ev.action).Some? then [CallPart(ev.action).value] else []
  }

  lemma NextCall(s: Server, ev: Event, id: Id)
    requires Inv(s) && Possible(s, ev) && id < |Next(s, ev).entries|
    ensures id <= |s.entries|
    ensures id == |s.entries| ==> !ev.Acted? && Next(s, ev).entries[id].call == C.NEW
    ensures id < |s.entries| ==>
      var call, after := s.entries[id].call, Next(s, ev).entries[id].call;
      if ev.Acted? && ev.id == id && CallPart(ev.action).Some?
      then C.Enabled(call, CallPart(ev.action).value) && after == C.Do(call, CallPart(ev.action).value)
      else after == call
  {
    if ev.Acted? {
      ActIs(s.entries[ev.id], ev.action);
    }
    hide EntryInv, Act, Can, Bookkeep, Filed, CleanedUp, C.Do, C.Enabled, CallPart, RemoveFrom, Removes;
  }

  /** What happens to the call of an entry is an interleaving of that call. */
  lemma {:induction false} RunsOneCall(evs: seq<Event>, id: Id)
    requires Exec(evs).Some?
    ensures id < |Exec(evs).value.entries| ==> C.Exec(CallSteps(evs, id)) == Some(Exec(evs).value.entries[id].call)
    ensures id >= |Exec(evs).value.entries| ==> CallSteps(evs, id) == []
    decreases |evs|
  {
    if evs == [] {
    } else {
      var n := |evs| - 1;
      var s, ev := Exec(evs[..n]).value, evs[n];
      RunsOneCall(evs[..n], id);
      NextExtends(s, ev);
      hide Inv, Next, Possible, CallPart, C.Exec;
      if id < |Exec(evs).value.entries| {
        NextCall(s, ev, id);
        OneMoreCallStep(evs, id);
      } else {
        NotYetActed(s, ev, id);
      }
    }
  }

  lemma NotYetActed(s: Server, ev: Event, id: Id)
    requires Possible(s, ev) && id >= |s.entries|
    ensures !(ev.Acted? && ev.id == id)
  {
  }

  lemma OneMoreCallStep(evs: seq<Event>, id: Id)
    requires evs != []
    ensures var before, ev := CallSteps(evs[..|evs| - 1], id), evs[|evs| - 1];
      if ev.Acted? && ev.id == id && CallPart(ev.action).Some?
      then
        C.Exec(before).Some? && C.Enabled(C.Exec(before).value, CallPart(ev.action).value) ==>
          C.Exec(CallSteps(evs, id)) == Some(C.Do(C.Exec(before).value, CallPart(ev.action).value))
      else CallSteps(evs, id) == before
    ensures C.Exec([]) == Some(C.NEW)
  {
    var before, ev := CallSteps(evs[..|evs| - 1], id), evs[|evs| - 1];
    if ev.Acted? && ev.id == id && CallPart(ev.action).Some? {
      var step := CallPart(ev.action).value;
      if C.Exec(before).Some? && C.Enabled(C.Exec(before).value, step) {
        C.ExecSnoc(before, step);
      }
    }
    hide CallPart, C.Do, C.Enabled;
  }

  /** What an event makes of an entry that is there. */
  function Received(s: Server, ev: Event, id: Id): Entry
    requires Possible(s, ev) && id < |s.entries|
  {
    var e := s.entries[id];
    match ev
    case Acted(other, a) => if other == id then Act(e, a) else e
    case Requested(request, toTag, callID) => if Find(s.maps, toTag, callID) == Some(id) then Deliver(e, request) else e
    case ShutDown => if s.stopped then e else Mark(e, id in s.maps.byTag.Values)
    case Invited(_, _) => e
  }

  lemma NextEntry(s: Server, ev: Event, id: Id)
    requires Inv(s) && Possible(s, ev)
    ensures |s.entries| <= |Next(s, ev).entries|
    ensures id < |s.entries| ==> Next(s, ev).entries[id] == Received(s, ev, id)
    ensures |s.entries| <= id < |Next(s, ev).entries| ==>
      ev.Invited? && id == |s.entries| && Next(s, ev).entries[id] == NewEntry(ev.tag, ev.callID)
  {
    hide EntryInv, Act, Can, Deliver, Mark, NewEntry, Filed, CleanedUp, Removes, RemoveFrom, StoreIn;
  }

  /** How often an entry took an action. */
  function Times(evs: seq<Event>, id: Id, a: Action): nat {
    if evs == [] then 0
    else Times(evs[..|evs| - 1], id, a) + if evs[|evs| - 1] == Acted(id, a) then 1 else 0
  }

  lemma {:induction false} NoTimes(evs: seq<Event>, id: Id, a: Action)
    requires Acted(id, a) !in evs
    ensures Times(evs, id, a) == 0
    decreases |evs|
  {
    if evs == [] {
    } else {
      assert evs[|evs| - 1] in evs && forall ev :: ev in evs[..|evs| - 1] ==> ev in evs;
      NoTimes(evs[..|evs| - 1], id, a);
    }
  }

  /** The BYEs counted are the sends that went through, and the relay's close body sends exactly once. */
  ghost predicate SendsCounted(e: Entry, sent: nat, failed: nat) {
    && e.byesSent == sent
    && sent + failed == if e.close.WatcherMustRemove? || e.close == Used(true) then 1 else 0
  }

  lemma ActCountsSends(e: Entry, a: Action, sent: nat, failed: nat)
    requires CloseInv(e) && Can(e, a) && SendsCounted(e, sent, failed)
    ensures SendsCounted(Act(e, a), sent + (if a == WatcherSends(true) then 1 else 0),
                         failed + (if a == WatcherSends(false) then 1 else 0))
  {
    ActIs(e, a);
    hide CloseInv, Act, CallPart, C.Do, C.Enabled, C.IsDone, C.ShouldSendBYE;
  }

  /** What is sent on hanging up, over every interleaving. */
  lemma {:induction false} ByesAreSends(evs: seq<Event>, id: Id)
    requires Exec(evs).Some?
    ensures id < |Exec(evs).value.entries| ==>
      SendsCounted(Exec(evs).value.entries[id], Times(evs, id, WatcherSends(true)), Times(evs, id, WatcherSends(false)))
    ensures id >= |Exec(evs).value.entries| ==> forall a :: Times(evs, id, a) == 0
    decreases |evs|
  {
    if evs == [] {
    } else {
      var n := |evs| - 1;
      var s, ev := Exec(evs[..n]).value, evs[n];
      ByesAreSends(evs[..n], id);
      NextEntry(s, ev, id);
      hide Inv, EntryInv, Next, Act, Deliver, Mark, Can;
      if id < |s.entries| {
        SendsAfter(s, ev, id, Times(evs[..n], id, WatcherSends(true)), Times(evs[..n], id, WatcherSends(false)));
      }
    }
  }

  lemma SendsAfter(s: Server, ev: Event, id: Id, sent: nat, failed: nat)
    requires Inv(s) && Possible(s, ev) && id < |s.entries| && SendsCounted(s.entries[id], sent, failed)
    ensures SendsCounted(Received(s, ev, id), sent + (if ev == Acted(id, WatcherSends(true)) then 1 else 0),
                         failed + (if ev == Acted(id, WatcherSends(false)) then 1 else 0))
  {
    var e := s.entries[id];
    assert EntryInv(e) && CloseInv(e);
    hide Inv, EntryInv, CloseInv, Act, Can, SendsCounted, Deliver, Mark, Find;
    if ev.Acted? && ev.id == id {
      ActCountsSends(e, ev.action, sent, failed);
    } else {
      ArrivalSendsNothing(e, if ev.Requested? then ev.request else Ack, id in s.maps.byTag.Values, sent, failed);
    }
  }

  lemma ArrivalSendsNothing(e: Entry, request: Request, live: bool, sent: nat, failed: nat)
    requires SendsCounted(e, sent, failed)
    ensures SendsCounted(Deliver(e, request), sent, failed) && SendsCounted(Mark(e, live), sent, failed)
  {
  }

  /** The relay's close body has sent a BYE, unless the send failed. */
  ghost predicate ByeSent(evs: seq<Event>, e: Entry, id: Id) {
    && (e.close == Used(true) && Acted(id, WatcherSends(false)) !in evs ==> e.byesSent == 1)
    && (e.close != Used(true) && !e.close.WatcherMustRemove? ==> e.byesSent == 0)
  }

  lemma HangupSendsBye(evs: seq<Event>, id: Id)
    requires Exec(evs).Some? && id < |Exec(evs).value.entries|
    ensures ByeSent(evs, Exec(evs).value.entries[id], id)
  {
    ByesAreSends(evs, id);
    if Acted(id, WatcherSends(false)) !in evs {
      NoTimes(evs, id, WatcherSends(false));
    }
    hide Exec, Times;
  }

  /**
   Per dialog at most one BYE is sent, only after Done, only for an agent, transfer or backend
   ending, and never if the close body of an incoming BYE ran. When the watcher has finished, the
   relay's own close body ran exactly in the remaining cases and has sent the BYE unless the send
   failed; its choice is the logged one, and the ending it went by is one that a step of the call
   gave, if any gave one.
   */
  lemma ByeDiscipline(evs: seq<Event>, id: Id)
    requires Exec(evs).Some? && id < |Exec(evs).value.entries|
    ensures var e := Exec(evs).value.entries[id];
      && e.byesSent <= 1
      && (e.byesSent == 1 ==> C.IsDone(e.call) && C.ShouldSendBYE(e.call.f.reason) && !e.byeBodyRan)
      && ByeSent(evs, e, id)
      && (e.watcher.Gone? ==> (e.close == Used(true) <==> C.ShouldSendBYE(e.call.f.reason) && !e.byeBodyRan))
      && (e.watcher.Gone? && e.call.published.Some? ==>
            (C.ShouldSendBYE(e.call.f.reason) <==> C.HangupReason(e.call.published.value) != "USER_ENDED"))
      && (C.IsDone(e.call) ==> C.Explains(C.Causes(CallSteps(evs, id)), e.call.f.reason))
  {
    var e := Exec(evs).value.entries[id];
    assert EntryInv(e);
    C.ByeMatchesLog(e.call.f.reason);
    RunsOneCall(evs, id);
    HangupSendsBye(evs, id);
    hide Exec, Inv, CallSteps, C.Exec, C.Causes, C.Explains, C.HangupReason, C.ShouldSendBYE, ByeSent;
    if C.IsDone(e.call) {
      C.ReasonHasCause(CallSteps(evs, id));
    }
  }

  // ---- filing ----------------------------------------------------------------------------

  predicate FiledByTag(s: Server, id: Id)
    requires id < |s.entries|
  {
    s.entries[id].tag in s.maps.byTag && s.maps.byTag[s.entries[id].tag] == id
  }

  /** The tags are drawn at random. */
  ghost predicate TagsDiffer(s: Server) {
    forall i: Id, j: Id :: i < j < |s.entries| ==> s.entries[i].tag != s.entries[j].tag
  }

  /** The call is closed or about to be. */
  predicate Leaving(e: Entry) {
    ShutdownHeard(e) || Turned(e.invite)
  }

  /** Only an entry that is leaving may be missing under its tag. */
  ghost predicate Kept(s: Server) {
    forall id: Id :: id < |s.entries| ==> FiledByTag(s, id) || Leaving(s.entries[id])
  }

  lemma DoneIsClosed(call: C.CallState)
    requires C.Inv(call) && C.IsDone(call)
    ensures call.f.closed
  {
  }

  /** An entry is removed only by who has closed its call, or is about to. */
  lemma RemovesLeaving(e: Entry, a: Action)
    requires EntryInv(e) && Can(e, a) && Removes(a)
    ensures Leaving(Act(e, a))
  {
    ActPastClose(e, a);
    ActIs(e, a);
    if OfWatcher(a) {
      assert C.IsDone(e.call);
      DoneIsClosed(e.call);
    }
    hide C.Inv, C.Do, C.Enabled, C.IsDone, C.ShouldSendBYE, Act;
  }

  lemma CarriesLeaving(early: Entry, late: Entry)
    requires Carries(early, late)
    ensures late.tag == early.tag && (Leaving(early) ==> Leaving(late))
  {
  }

  lemma ActKeepsKept(s: Server, id: Id, a: Action)
    requires Inv(s) && Possible(s, Acted(id, a)) && Kept(s)
    ensures Kept(Next(s, Acted(id, a)))
  {
    var r, e := Next(s, Acted(id, a)), s.entries[id];
    NextExtends(s, Acted(id, a));
    assert EntryInv(e);
    if Removes(a) {
      RemovesLeaving(e, a);
    }
    hide Act, Can, EntryInv, Carries, Leaving, Filed, CleanedUp, EntriesInv;
    forall other: Id | other < |r.entries|
      ensures FiledByTag(r, other) || Leaving(r.entries[other])
    {
      assert FiledByTag(s, other) || Leaving(s.entries[other]);
      CarriesLeaving(s.entries[other], r.entries[other]);
    }
  }

  lemma InviteKeepsKept(s: Server, tag: string, callID: string)
    requires Inv(s) && Kept(s) && TagsDiffer(Next(s, Invited(tag, callID)))
    ensures Kept(Next(s, Invited(tag, callID)))
  {
    var r, n := Next(s, Invited(tag, callID)), |s.entries|;
    hide EntryInv, Leaving, Filed, CleanedUp, EntriesInv;
    forall id: Id | id < |r.entries|
      ensures FiledByTag(r, id) || Leaving(r.entries[id])
    {
      if id < n {
        assert FiledByTag(s, id) || Leaving(s.entries[id]);
        assert r.entries[id] == s.entries[id] && r.entries[id].tag != r.entries[n].tag;
      }
    }
  }

  lemma RequestKeepsKept(s: Server, request: Request, toTag: string, callID: string)
    requires Inv(s) && Kept(s)
    ensures Kept(Next(s, Requested(request, toTag, callID)))
  {
    var ev := Requested(request, toTag, callID);
    var r := Next(s, ev);
    NextExtends(s, ev);
    hide EntryInv, Carries, Leaving, Filed, CleanedUp, EntriesInv, Deliver;
    forall id: Id | id < |r.entries|
      ensures FiledByTag(r, id) || Leaving(r.entries[id])
    {
      assert FiledByTag(s, id) || Leaving(s.entries[id]);
      CarriesLeaving(s.entries[id], r.entries[id]);
    }
  }

  lemma ShutDownKeepsKept(s: Server)
    requires Inv(s) && Kept(s)
    ensures Kept(Next(s, ShutDown))
  {
    var r := Next(s, ShutDown);
    NextExtends(s, ShutDown);
    hide EntryInv, Carries, Leaving, Filed, CleanedUp, EntriesInv, Mark;
    forall id: Id | id < |r.entries|
      ensures FiledByTag(r, id) || Leaving(r.entries[id])
    {
      assert FiledByTag(s, id) || Leaving(s.entries[id]);
      CarriesLeaving(s.entries[id], r.entries[id]);
      if !s.stopped && FiledByTag(s, id) {
        assert id in s.maps.byTag.Values;
        MarkedLeaving(s.entries[id]);
      }
    }
  }

  lemma MarkedLeaving(e: Entry)
    ensures Leaving(Mark(e, true))
  {
  }

  lemma TagsDiffered(s: Server, ev: Event)
    requires Inv(s) && Possible(s, ev) && TagsDiffer(Next(s, ev))
    ensures TagsDiffer(s)
  {
    var r := Next(s, ev);
    NextExtends(s, ev);
    hide Inv, Next, Carries;
    forall i: Id, j: Id | i < j < |s.entries|
      ensures s.entries[i].tag != s.entries[j].tag
    {
      CarriesLeaving(s.entries[i], r.entries[i]);
      CarriesLeaving(s.entries[j], r.entries[j]);
    }
  }

  lemma {:induction false} ExecKept(evs: seq<Event>)
    ensures Exec(evs).Some? && TagsDiffer(Exec(evs).value) ==> Kept(Exec(evs).value)
    decreases |evs|
  {
    if evs == [] {
    } else if Exec(evs).Some? && TagsDiffer(Exec(evs).value) {
      var n := |evs| - 1;
      var s, ev := Exec(evs[..n]).value, evs[n];
      ExecKept(evs[..n]);
      hide Inv, Next, Possible, Kept, TagsDiffer;
      TagsDiffered(s, ev);
      match ev
      case Acted(id, a) => ActKeepsKept(s, id, a);
      case Invited(tag, callID) => InviteKeepsKept(s, tag, callID);
      case Requested(request, toTag, callID) => RequestKeepsKept(s, request, toTag, callID);
      case ShutDown => ShutDownKeepsKept(s);
    }
  }

  /** The call is up: dialing or relaying, and neither closed nor ending by itself. */
  predicate Live(call: C.CallState) {
    call.f.started && !C.Ending(call)
  }

  /** A call that is up, and not about to be shut down, is found by the tag of its dialog. */
  lemma LiveIsFound(evs: seq<Event>, id: Id, anyCallID: string)
    requires Exec(evs).Some? && TagsDiffer(Exec(evs).value) && id < |Exec(evs).value.entries|
    ensures var s := Exec(evs).value;
      var e := s.entries[id];
      Live(e.call) && !e.mustShutDown && e.tag != "" ==> Find(s.maps, e.tag, anyCallID) == Some(id)
  {
    var s := Exec(evs).value;
    ExecKept(evs);
    assert FiledByTag(s, id) || Leaving(s.entries[id]);
    assert EntryInv(s.entries[id]);
    hide Exec, Inv, Kept, TagsDiffer, CloseInv, DecisionInv;
  }

  // ---- no leaks --------------------------------------------------------------------------

  /** An action some thread takes by itself, with no further message from either side. */
  predicate ForcedAct(e: Entry, a: Action) {
    && Can(e, a)
    && match a {
      case TakeAck(fromTransaction) => !fromTransaction
      case TransactionCancel => false
      case CallStep(step) => C.Forced(e.call, step)
      case _ => true
    }
  }

  /** No thread of the entry can go on without a new message. */
  ghost predicate AtRest(e: Entry) {
    forall a :: !ForcedAct(e, a)
  }

  lemma EndedEntrySettles(e: Entry)
    requires EntryInv(e) && C.IsDone(e.call) && e.invite.Accepted? && AtRest(e)
    ensures e.watcher.Gone?
  {
    hide C.Inv, C.Forced, C.Enabled;
    assert !ForcedAct(e, WatcherWakes) && !ForcedAct(e, WatcherRemoves);
    assert !ForcedAct(e, WatcherEnters) && !ForcedAct(e, WatcherSkips);
    assert !ForcedAct(e, WatcherSends(true)) && !ForcedAct(e, WatcherRemovesInBody);
    assert !ForcedAct(e, ByeCloses) && !ForcedAct(e, ByeRemoves);
  }

  /** At rest the INVITE has been answered or refused, its ACK has come or not, and no handler is under way. */
  lemma RestIsQuiet(e: Entry)
    requires EntryInv(e) && AtRest(e)
    ensures e.invite.Accepted? || e.invite.Refused?
    ensures e.call.f.started || e.call.f.closed
    ensures ByeHeard(e) || CancelHeard(e) || ShutdownHeard(e) || Turned(e.invite) ==> e.call.f.closed
  {
    assert !ForcedAct(e, Respond) && !ForcedAct(e, RefusedCloses) && !ForcedAct(e, AckTimeout);
    assert !ForcedAct(e, ByeEnters) && !ForcedAct(e, ByeSkips) && !ForcedAct(e, ByeCloses);
    assert !ForcedAct(e, ByeRemoves) && !ForcedAct(e, WatcherSends(true)) && !ForcedAct(e, WatcherRemovesInBody);
    assert !ForcedAct(e, CancelCloses) && !ForcedAct(e, ShutdownCloses);
    hide C.Forced, C.Enabled, C.ShouldSendBYE, AtRest, C.IsDone;
    if e.close == Used(true) {
      assert C.IsDone(e.call);
      DoneIsClosed(e.call);
    }
    hide C.Inv;
  }

  /** At rest a call is up or complete, and complete if it is ending. */
  lemma CallSettles(call: C.CallState)
    requires C.Inv(call) && (call.f.started || call.f.closed) && forall step :: !C.Forced(call, step)
    ensures Live(call) || C.Complete(call)
  {
    if C.Ending(call) {
      C.TeardownCompletes(call);
    }
    hide C.Inv, C.Forced, C.Complete;
  }

  lemma CallStepForced(e: Entry, step: C.Step)
    ensures ForcedAct(e, CallStep(step)) <==> C.Forced(e.call, step)
  {
  }

  lemma EntrySettles(e: Entry)
    requires EntryInv(e) && AtRest(e)
    ensures Live(e.call) || (Finished(e) && C.Complete(e.call))
  {
    forall step
      ensures !C.Forced(e.call, step)
    {
      CallStepForced(e, step);
    }
    RestIsQuiet(e);
    hide CloseInv, AwaiterInv, PastClose, ForcedAct, C.Inv, C.Forced;
    CallSettles(e.call);
    if !Live(e.call) && e.invite.Accepted? {
      EndedEntrySettles(e);
    }
    hide DecisionInv, Live;
  }

  /**
   When nothing more happens by itself, a call that is up is filed under its tag, and any other is
   complete and its entry in neither map.
   */
  ghost predicate Settled(s: Server, id: Id) {
    id < |s.entries| && AtRest(s.entries[id]) ==>
      if Live(s.entries[id].call) then TagsDiffer(s) ==> FiledByTag(s, id)
      else Absent(s.maps, id) && C.Complete(s.entries[id].call)
  }

  /**
   Nothing leaks: over every interleaving, an entry at rest is filed under its tag if and only if its
   call is up; if it is not, the call has come to its end and no map holds the entry.
   */
  lemma NoLeaks(evs: seq<Event>, id: Id)
    ensures Exec(evs).Some? ==> Settled(Exec(evs).value, id)
  {
    if Exec(evs).Some? {
      var s := Exec(evs).value;
      ExecKept(evs);
      hide Exec, EntryInv, AtRest, Finished, Live, C.Complete, TagsDiffer, Leaving, FiledByTag;
      if id < |s.entries| && AtRest(s.entries[id]) {
        EntrySettles(s.entries[id]);
        if Live(s.entries[id].call) {
          LiveStays(s.entries[id]);
        }
      }
    }
  }

  lemma LiveStays(e: Entry)
    requires EntryInv(e) && AtRest(e) && Live(e.call)
    ensures !Leaving(e)
  {
    RestIsQuiet(e);
    hide EntryInv, AtRest;
  }

  // ---- hanging up ------------------------------------------------------------------------

  /** A BYE or CANCEL that finds the entry, a shutdown while it is filed, or an answer or ACK that fails. */
  ghost predicate HangsUp(s: Server, ev: Event, id: Id)
    requires id < |s.entries|
  {
    match ev
    case Requested(request, toTag, callID) => !request.Ack? && Find(s.maps, toTag, callID) == Some(id)
    case ShutDown => !s.stopped && FiledByTag(s, id)
    case Acted(other, a) => other == id && (a.RespondFails? || a.AckTimeout? || a.TransactionCancel?)
    case Invited(_, _) => false
  }

  predicate HangingUp(e: Entry) {
    ByeHeard(e) || CancelHeard(e) || ShutdownHeard(e) || Turned(e.invite)
  }

  lemma CarriesHangup(early: Entry, late: Entry)
    requires Carries(early, late)
    ensures HangingUp(early) ==> HangingUp(late)
  {
  }

  lemma HangupIsHeard(s: Server, ev: Event, id: Id)
    requires Inv(s) && Possible(s, ev) && id < |s.entries| && HangsUp(s, ev, id)
    ensures id < |Next(s, ev).entries| && HangingUp(Next(s, ev).entries[id])
  {
    assert EntryInv(s.entries[id]) && MapsInRange(s);
    hide Inv, EntryInv, Act, Deliver, Mark, HangingUp, RemoveFrom, Removes, Can;
    match ev
    case Requested(request, toTag, callID) => DeliveredIsHeard(s.entries[id], request);
    case ShutDown =>
      assert id in s.maps.byTag.Values;
      MarkedIsHeard(s.entries[id]);
    case Acted(_, a) => ActIsHeard(s.entries[id], a);
  }

  lemma DeliveredIsHeard(e: Entry, request: Request)
    requires !request.Ack?
    ensures HangingUp(Deliver(e, request))
  {
  }

  lemma MarkedIsHeard(e: Entry)
    ensures HangingUp(Mark(e, true))
  {
  }

  lemma ActIsHeard(e: Entry, a: Action)
    requires EntryInv(e) && Can(e, a) && (a.RespondFails? || a.AckTimeout? || a.TransactionCancel?)
    ensures HangingUp(Act(e, a))
  {
    ActPastClose(e, a);
    ActIs(e, a);
    hide EntryInv, Act, C.Do, C.Enabled;
  }

  /** If ev hangs up on an entry, the entry ends when it comes to rest. */
  ghost predicate EndedBy(early: Server, ev: Event, late: Server, id: Id) {
    id < |early.entries| && HangsUp(early, ev, id) ==>
      && id < |late.entries|
      && (AtRest(late.entries[id]) ==> C.Complete(late.entries[id].call) && Absent(late.maps, id))
  }

  /**
   A BYE, a CANCEL, a shutdown, a failed answer and a missing ACK each end the dialog: in every later
   state in which its entry is at rest, the call is complete and the entry in neither map.
   */
  lemma HangupEndsDialog(evs: seq<Event>, i: nat, id: Id)
    requires i < |evs|
    ensures Exec(evs).Some? ==>
      Exec(evs[..i]).Some? && EndedBy(Exec(evs[..i]).value, evs[i], Exec(evs).value, id)
  {
    if Exec(evs).Some? {
      History(evs, i);
      History(evs, i + 1);
      ExecStep(evs, i);
      var before, after, late := Exec(evs[..i]).value, Exec(evs[..i + 1]).value, Exec(evs).value;
      hide Exec, Inv, Next, Possible, HangsUp, HangingUp, AtRest, Carries, C.Complete, Absent;
      if id < |before.entries| && HangsUp(before, evs[i], id) {
        HangupIsHeard(before, evs[i], id);
        CarriesHangup(after.entries[id], late.entries[id]);
        if AtRest(late.entries[id]) {
          HungUpSettles(late, id);
        }
      }
    }
  }

  lemma ExecStep(evs: seq<Event>, i: nat)
    requires i < |evs| && Exec(evs[..i + 1]).Some?
    ensures Exec(evs[..i]).Some? && Possible(Exec(evs[..i]).value, evs[i])
    ensures Exec(evs[..i + 1]).value == Next(Exec(evs[..i]).value, evs[i])
  {
    assert evs[..i + 1][..i] == evs[..i];
    hide Inv, Next, Possible;
  }

  lemma HungUpSettles(s: Server, id: Id)
    requires Inv(s) && id < |s.entries| && AtRest(s.entries[id]) && HangingUp(s.entries[id])
    ensures C.Complete(s.entries[id].call) && Absent(s.maps, id)
  {
    var e := s.entries[id];
    assert EntryInv(e);
    RestIsQuiet(e);
    EntrySettles(e);
    hide EntryInv, AtRest, C.Complete;
  }

  /** The awaiter can take an ACK that found its entry, which starts the call unless a close came first. */
  ghost predicate AckKept(early: Server, ev: Event, late: Server, id: Id) {
    ev.Requested? && ev.request.Ack? && Find(early.maps, ev.toTag, ev.callID) == Some(id) ==>
      && id < |late.entries|
      && (late.entries[id].awaiter.AwaitingAck? ==> AckStarts(late.entries[id]))
  }

  ghost predicate AckStarts(e: Entry) {
    Can(e, TakeAck(false)) && (Act(e, TakeAck(false)).call.f.started <==> !e.call.f.closed)
  }

  /** An ACK that finds the entry is not lost, for as long as the awaiter waits. */
  lemma AckIsHeard(evs: seq<Event>, i: nat, id: Id)
    requires i < |evs|
    ensures Exec(evs).Some? ==>
      Exec(evs[..i]).Some? && AckKept(Exec(evs[..i]).value, evs[i], Exec(evs).value, id)
  {
    if Exec(evs).Some? {
      History(evs, i);
      History(evs, i + 1);
      ExecStep(evs, i);
      var before, after, late := Exec(evs[..i]).value, Exec(evs[..i + 1]).value, Exec(evs).value;
      if evs[i].Requested? && evs[i].request.Ack? && Find(before.maps, evs[i].toTag, evs[i].callID) == Some(id) {
        AckArrives(before, evs[i], id);
        assert EntryInv(late.entries[id]);
        hide Exec, EntryInv, Carries, AckStarts, Inv, Next, Possible;
        AckWaits(after.entries[id], late.entries[id]);
      }
    }
  }

  lemma AckArrives(s: Server, ev: Event, id: Id)
    requires Inv(s) && ev.Requested? && ev.request.Ack? && Find(s.maps, ev.toTag, ev.callID) == Some(id)
    ensures id < |Next(s, ev).entries| && Next(s, ev).entries[id].ackBuffered
  {
    hide EntryInv, Filed, CleanedUp;
  }

  lemma AckWaits(early: Entry, late: Entry)
    requires Carries(early, late) && early.ackBuffered && EntryInv(late)
    ensures late.awaiter.AwaitingAck? ==> AckStarts(late)
  {
    hide CloseInv, DecisionInv, Persists;
  }

  // ---- who hangs up ----------------------------------------------------------------------

  /** A BYE or the cancel of the INVITE transaction closes a call that was not closed before. */
  predicate UserHangsUp(s: Server, ev: Event, id: Id) {
    && ev.Acted? && ev.id == id < |s.entries| && (ev.action.ByeCloses? || ev.action.TransactionCancel?)
    && !s.entries[id].call.f.closed
  }

  ghost predicate UserHungUp(evs: seq<Event>, id: Id) {
    exists i :: 0 <= i < |evs| && HangupAt(evs, i, id)
  }

  ghost predicate HangupAt(evs: seq<Event>, i: nat, id: Id)
    requires i < |evs|
  {
    Exec(evs[..i]).Some? && UserHangsUp(Exec(evs[..i]).value, evs[i], id)
  }

  lemma CauseOfHangup(e: Entry, a: Action)
    requires Can(e, a) && CallPart(a).Some?
    ensures C.Cause(e.call, CallPart(a).value) == C.UserEnded <==>
      (a.ByeCloses? || a.TransactionCancel?) && !e.call.f.closed
  {
  }

  lemma HungUpSnoc(evs: seq<Event>, id: Id)
    requires evs != []
    ensures UserHungUp(evs, id) <==> UserHungUp(evs[..|evs| - 1], id) || HangupAt(evs, |evs| - 1, id)
  {
    hide Exec, UserHangsUp;
    var n := |evs| - 1;
    forall i | 0 <= i < n
      ensures HangupAt(evs[..n], i, id) == HangupAt(evs, i, id)
    {
      assert evs[..n][..i] == evs[..i];
    }
    hide HangupAt;
  }

  /** Among the reasons a call was given is the user's exactly if the user hung up on it. */
  lemma {:induction false} UserEndedIsHangup(evs: seq<Event>, id: Id)
    ensures Exec(evs).Some? ==> (C.UserEnded in C.Causes(CallSteps(evs, id)) <==> UserHungUp(evs, id))
    decreases |evs|
  {
    hide *;
    if evs == [] {
      NothingHappened(id);
    } else if Exec(evs).Some? {
      var n := |evs| - 1;
      assert evs[..n + 1] == evs;
      ExecStep(evs, n);
      UserEndedIsHangup(evs[..n], id);
      HungUpSnoc(evs, id);
      OneMoreReason(evs, id);
    }
  }

  lemma NothingHappened(id: Id)
    ensures C.Causes(CallSteps([], id)) == {} && !UserHungUp([], id)
  {
  }

  lemma OneMoreReason(evs: seq<Event>, id: Id)
    requires evs != [] && Exec(evs[..|evs| - 1]).Some?
    requires Possible(Exec(evs[..|evs| - 1]).value, evs[|evs| - 1])
    ensures C.UserEnded in C.Causes(CallSteps(evs, id)) <==>
      C.UserEnded in C.Causes(CallSteps(evs[..|evs| - 1], id)) || HangupAt(evs, |evs| - 1, id)
  {
    hide Exec, C.Exec, C.Causes, CallPart, C.Cause, Can, Inv;
    var before, ev := evs[..|evs| - 1], evs[|evs| - 1];
    var s := Exec(before).value;
    RunsOneCall(before, id);
    if ev.Acted? && ev.id == id && CallPart(ev.action).Some? {
      C.CausesSnoc(CallSteps(before, id), CallPart(ev.action).value);
      CauseOfHangup(s.entries[id], ev.action);
    } else {
      NoCallPart(s, ev, id);
      assert CallSteps(before, id) + [] == CallSteps(before, id);
    }
  }

  lemma NoCallPart(s: Server, ev: Event, id: Id)
    requires !(ev.Acted? && ev.id == id && CallPart(ev.action).Some?)
    ensures !UserHangsUp(s, ev, id)
  {
  }

  /** As long as only the user's side gave reasons for an end, the relay has sent no BYE. */
  lemma NoByeToUser(evs: seq<Event>, id: Id)
    ensures Exec(evs).Some? && id < |Exec(evs).value.entries| && C.Causes(CallSteps(evs, id)) <= {C.UserEnded} ==>
      Exec(evs).value.entries[id].byesSent == 0 && Exec(evs).value.entries[id].close != Used(true)
  {
    if Exec(evs).Some? && id < |Exec(evs).value.entries| && C.Causes(CallSteps(evs, id)) <= {C.UserEnded} {
      assert EntryInv(Exec(evs).value.entries[id]);
      ByeDiscipline(evs, id);
      hide Exec, Inv, CallSteps, C.Causes, C.HangupReason;
    }
  }

  /** At rest a call whose steps gave reasons, none of them the user's, has run, ended and been watched to its end. */
  lemma EndedUnasked(e: Entry, given: set<C.EndReason>)
    requires EntryInv(e) && AtRest(e) && C.Traced(e.call, given) && C.Ending(e.call)
    requires given != {} && C.UserEnded !in given
    ensures C.Complete(e.call) && Finished(e) && e.watcher.Gone?
  {
    EntrySettles(e);
    assert e.call.f.started && e.invite.Accepted?;
    hide EntryInv, AtRest, C.Ending, C.Traced;
    EndedEntrySettles(e);
  }

  /**
   A call that was given a reason to end, and on which the user did not hang up, is ended by the
   relay: at rest its entry is in neither map, and the relay's close body has run, and has sent the
   BYE unless the send failed, if and only if that of an incoming BYE did not.
   */
  lemma RelayHangsUp(evs: seq<Event>, id: Id)
    requires Exec(evs).Some? && id < |Exec(evs).value.entries|
    ensures
      var e, given := Exec(evs).value.entries[id], C.Causes(CallSteps(evs, id));
      AtRest(e) && given != {} && !UserHungUp(evs, id) ==>
        && C.Complete(e.call) && Absent(Exec(evs).value.maps, id)
        && (e.close == Used(true) <==> !e.byeBodyRan) && ByeSent(evs, e, id) && e.call.f.reason in given
  {
    var s := Exec(evs).value;
    var e, given := s.entries[id], C.Causes(CallSteps(evs, id));
    UserEndedIsHangup(evs, id);
    if AtRest(e) && given != {} && C.UserEnded !in given {
      assert EntryInv(e);
      RunsOneCall(evs, id);
      C.ExecTraced(CallSteps(evs, id));
      C.GivenEnds(CallSteps(evs, id));
      hide Exec, EntryInv, CallSteps, AtRest, Finished, UserHungUp;
      hide C.Exec, C.Causes, C.Ending, C.Traced, C.HangupReason, ByeSent;
      EndedUnasked(e, given);
      ByeDiscipline(evs, id);
    }
  }

  /** The backend's word for why it ends: an event it sends, or how its stream ends. */
  predicate Tells(step: C.Step, reason: C.EndReason) {
    C.Reportable(reason) && (step == C.RecvStops(reason) || step == C.LeaveRelay(C.StreamTyped(reason)))
  }

  lemma {:induction false} CallStepsPrefix(evs: seq<Event>, i: nat, id: Id)
    requires i <= |evs|
    ensures CallSteps(evs[..i], id) <= CallSteps(evs, id)
    decreases |evs|
  {
    if i == |evs| {
      assert evs[..i] == evs;
    } else {
      CallStepsPrefix(evs[..|evs| - 1], i, id);
      assert evs[..|evs| - 1][..i] == evs[..i];
      hide CallPart;
    }
  }

  lemma ToldIsGiven(evs: seq<Event>, i: nat, id: Id, step: C.Step, reason: C.EndReason)
    requires i < |evs| && Exec(evs).Some? && evs[i] == Acted(id, CallStep(step)) && Tells(step, reason)
    ensures reason in C.Causes(CallSteps(evs, id))
  {
    hide *;
    var before := CallSteps(evs[..i], id);
    History(evs, i);
    ActedInRange(evs, i, id);
    RunsOneCall(evs[..i], id);
    CallStepsPrefix(evs, i + 1, id);
    StepAppended(evs, i, id, step);
    C.CausesGrow(before + [step], CallSteps(evs, id));
    TellsIsCause(C.Exec(before).value, step, reason);
    C.CausesSnoc(before, step);
    GivenHolds(C.Causes(before), reason);
  }

  lemma GivenHolds(given: set<C.EndReason>, reason: C.EndReason)
    requires reason != C.NoReason
    ensures reason in C.Given(given, reason)
  {
  }

  lemma StepAppended(evs: seq<Event>, i: nat, id: Id, step: C.Step)
    requires i < |evs| && evs[i] == Acted(id, CallStep(step))
    ensures CallSteps(evs[..i + 1], id) == CallSteps(evs[..i], id) + [step]
  {
    assert evs[..i + 1][..i] == evs[..i];
  }

  lemma TellsIsCause(call: C.CallState, step: C.Step, reason: C.EndReason)
    requires Tells(step, reason)
    ensures C.Cause(call, step) == reason && reason != C.NoReason
  {
  }

  lemma ActedInRange(evs: seq<Event>, i: nat, id: Id)
    requires i < |evs| && Exec(evs).Some? && evs[i].Acted? && evs[i].id == id
    ensures Exec(evs[..i]).Some? && id < |Exec(evs[..i]).value.entries| <= |Exec(evs).value.entries|
  {
    History(evs, i);
    History(evs, i + 1);
    ExecStep(evs, i);
    hide Exec, Inv, Carries, Next;
  }

  /** At rest, and without a hangup by the user: complete, absent, and hung up by the relay or a late BYE. */
  ghost predicate EndedByRelay(evs: seq<Event>, s: Server, id: Id, reason: C.EndReason)
    requires id < |s.entries|
  {
    var e, given := s.entries[id], C.Causes(CallSteps(evs, id));
    AtRest(e) && !UserHungUp(evs, id) ==>
      && C.Complete(e.call) && Absent(s.maps, id)
      && (e.close == Used(true) <==> !e.byeBodyRan) && ByeSent(evs, e, id)
      && (given == {reason} ==> LoggedAs(e.call, reason))
  }

  /** The call log names the backend's reason. */
  ghost predicate LoggedAs(call: C.CallState, reason: C.EndReason) {
    && call.published.Some?
    && var word := C.HangupReason(call.published.value);
       && (reason == C.Transfer ==> word == "TRANSFERRED")
       && (reason == C.AgentEnded ==> word == "AGENT_ENDED")
       && (reason == C.BackendError ==> word == "BACKEND_ERROR")
  }

  /** At rest and complete after a reason, the call has run and published it. */
  lemma LoggedReason(e: Entry, given: set<C.EndReason>, reason: C.EndReason)
    requires C.Complete(e.call) && C.Traced(e.call, given) && given == {reason} && C.Reportable(reason)
    requires e.call.f.reason in given
    ensures LoggedAs(e.call, reason)
  {
  }

  /**
   A transfer, an end of the session or a go-away told by the backend ends the dialog from the relay's
   side unless the user hangs up: at rest the relay's close body has run and sent the BYE, or that of
   an incoming BYE has, and if nothing else was given, that reason is the one logged.
   */
  lemma BackendEndsDialog(evs: seq<Event>, i: nat, id: Id, step: C.Step, reason: C.EndReason)
    requires i < |evs| && evs[i] == Acted(id, CallStep(step)) && Tells(step, reason)
    ensures Exec(evs).Some? ==>
      id < |Exec(evs).value.entries| && EndedByRelay(evs, Exec(evs).value, id, reason)
  {
    if Exec(evs).Some? {
      ToldIsGiven(evs, i, id, step, reason);
      ActedInRange(evs, i, id);
      RelayHangsUp(evs, id);
      RunsOneCall(evs, id);
      C.ExecTraced(CallSteps(evs, id));
      assert C.Reportable(reason);
      hide Exec, Inv, AtRest, UserHungUp, CallSteps, C.Causes, C.Complete, Absent, ByeSent, C.Exec, C.Traced;
      hide C.HangupReason, LoggedAs;
      var e, given := Exec(evs).value.entries[id], C.Causes(CallSteps(evs, id));
      if AtRest(e) && !UserHungUp(evs, id) && given == {reason} {
        LoggedReason(e, given, reason);
      }
    }
  }

  // ---- an end in sight -------------------------------------------------------------------

  function OnceRank(o: Once): nat {
    match o
    case Unused => 3
    case ByeMustClose => 2
    case ByeMustRemove => 1
    case WatcherMustSend => 2
    case WatcherMustRemove => 1
    case Used(_) => 0
  }

  function InviteRank(i: Invite): nat {
    if i.Stored? then 6 else if i.MustCloseCall? then 1 else 0
  }

  function AwaiterRank(a: Awaiter): nat {
    if a.AwaitingAck? then 2 else if a.AwaiterMustRemove? then 1 else 0
  }

  function WatcherRank(w: Watcher): nat {
    match w
    case AwaitingDone => 3
    case Chose(_) => 2
    case InBody => 1
    case _ => 0
  }

  /** What an entry still has to do, its call left out. */
  function Chores(e: Entry): nat {
    OnceRank(e.close) + InviteRank(e.invite) + AwaiterRank(e.awaiter) + WatcherRank(e.watcher)
    + e.pendingByes + 2 * e.pendingCancels + e.pendingRemoves + if e.mustShutDown then 1 else 0
  }

  function EntryRank(e: Entry): nat {
    Chores(e) + C.Rank(e.call)
  }

  lemma WatcherDoesChore(e: Entry, a: Action)
    requires CloseInv(e) && Can(e, a) && OfWatcher(a)
    ensures Chores(Bookkeep(e, a)) < Chores(e)
  {
    hide CloseInv, C.Enabled, C.IsDone, C.ShouldSendBYE, InviteRank, AwaiterRank;
  }

  lemma HandlerDoesChore(e: Entry, a: Action)
    requires CloseInv(e) && AwaiterInv(e) && Can(e, a) && !OfWatcher(a) && !a.CallStep?
    ensures Chores(Bookkeep(e, a)) < Chores(e)
  {
    assert a.Respond? ==> e.watcher.NoWatcher? && e.awaiter.NoAwaiter?;
    hide CloseInv, AwaiterInv, C.Enabled, C.IsDone, C.ShouldSendBYE;
  }

  lemma BookkeepDoesChore(e: Entry, a: Action)
    requires CloseInv(e) && AwaiterInv(e) && Can(e, a)
    ensures if a.CallStep? then Bookkeep(e, a) == e else Chores(Bookkeep(e, a)) < Chores(e)
  {
    if OfWatcher(a) {
      WatcherDoesChore(e, a);
    } else if !a.CallStep? {
      HandlerDoesChore(e, a);
    }
    hide CloseInv, AwaiterInv, Chores, Can;
  }

  lemma RankWithCall(e: Entry, call: C.CallState)
    ensures EntryRank(e.(call := call)) == Chores(e) + C.Rank(call)
  {
    hide C.Rank, OnceRank, InviteRank, AwaiterRank, WatcherRank;
  }

  /** Every action of a handler, the awaiter, the watcher or the call brings the entry closer to its end. */
  lemma ActsRunOut(e: Entry, a: Action)
    requires EntryInv(e) && Can(e, a)
    ensures EntryRank(Act(e, a)) < EntryRank(e)
  {
    BookkeepDoesChore(e, a);
    ActIs(e, a);
    RankWithCall(Bookkeep(e, a), Act(e, a).call);
    RankWithCall(e, e.call);
    assert CallPart(a).None? ==> !a.CallStep?;
    assert a.CallStep? ==> CallPart(a) == Some(a.step) && !a.step.Start? && !a.step.Close?;
    hide EntryRank, Chores, CloseInv, AwaiterInv, Can, Act, Bookkeep, CallPart, C.Inv, C.Do, C.Enabled, C.Rank;
    if CallPart(a).Some? {
      C.StepsRunOut(e.call, CallPart(a).value);
    }
  }

  /** Actions of one entry in an interleaving, and messages and shutdowns from outside. */
  function Acts(evs: seq<Event>, id: Id): nat {
    if evs == [] then 0
    else
      var ev := evs[|evs| - 1];
      Acts(evs[..|evs| - 1], id) + if ev.Acted? && ev.id == id then 1 else 0
  }

  function Arrivals(evs: seq<Event>): nat {
    if evs == [] then 0
    else Arrivals(evs[..|evs| - 1]) + if evs[|evs| - 1].Acted? then 0 else 1
  }

  lemma ArrivalRank(e: Entry, request: Request, live: bool)
    ensures EntryRank(Deliver(e, request)) <= EntryRank(e) + 2
    ensures EntryRank(Mark(e, live)) <= EntryRank(e) + 1
  {
    hide C.Rank, OnceRank, InviteRank, AwaiterRank, WatcherRank;
  }

  lemma NextRank(s: Server, ev: Event, id: Id)
    requires Inv(s) && Possible(s, ev) && id < |s.entries|
    ensures id < |Next(s, ev).entries|
    ensures
      var spent, left := EntryRank(s.entries[id]), EntryRank(Next(s, ev).entries[id]);
      if ev.Acted? then left + (if ev.id == id then 1 else 0) <= spent else left <= spent + 2
  {
    if ev.Acted? {
      assert EntryInv(s.entries[ev.id]);
      ActsRunOut(s.entries[ev.id], ev.action);
    }
    ArrivalRank(s.entries[id], if ev.Requested? then ev.request else Ack, id in s.maps.byTag.Values);
    assert MapsInRange(s);
    hide Inv, EntryInv, Act, Can, EntryRank, Deliver, Mark, Removes, RemoveFrom, StoreIn, NewEntry;
  }

  /** A dialog takes at most 34 actions, and two more for every message or shutdown that arrives. */
  lemma {:induction false} BoundedDialog(evs: seq<Event>, id: Id)
    requires Exec(evs).Some?
    ensures var s := Exec(evs).value;
      if id < |s.entries|
      then Acts(evs, id) + EntryRank(s.entries[id]) <= 34 + 2 * Arrivals(evs)
      else Acts(evs, id) == 0
    decreases |evs|
  {
    if evs == [] {
    } else {
      var n := |evs| - 1;
      BoundedDialog(evs[..n], id);
      var s := Exec(evs[..n]).value;
      hide EntryRank, Inv;
      if id < |s.entries| {
        NextRank(s, evs[n], id);
        hide Next;
      } else {
        FirstRank(s, evs[n], id);
        hide Next;
      }
    }
  }

  lemma FirstRank(s: Server, ev: Event, id: Id)
    requires Inv(s) && Possible(s, ev) && id >= |s.entries|
    ensures id < |Next(s, ev).entries| ==> ev.Invited? && EntryRank(Next(s, ev).entries[id]) == 34
  {
    hide Act, Can, EntryInv, Filed, CleanedUp;
  }

  /** The choice a watcher once made and the reason logged in any later state agree. */
  ghost predicate Agrees(early: Server, late: Server, id: Id) {
    id < |early.entries| && early.entries[id].watcher.Chose? ==>
      && id < |late.entries|
      && (late.entries[id].call.published.Some? ==>
            (early.entries[id].watcher.bye
             <==> C.HangupReason(late.entries[id].call.published.value) != "USER_ENDED"))
  }

  /** Whatever an entry's watcher and its call log read after Done, they read the same reason. */
  lemma WatcherAndLogAgree(evs: seq<Event>, i: nat, id: Id)
    requires i <= |evs|
    ensures Exec(evs).Some? ==>
      Exec(evs[..i]).Some? && Agrees(Exec(evs[..i]).value, Exec(evs).value, id)
  {
    if Exec(evs).Some? {
      History(evs, i);
      var early, late := Exec(evs[..i]).value, Exec(evs).value;
      hide Exec;
      if id < |early.entries| {
        var e, l := early.entries[id], late.entries[id];
        assert EntryInv(e) && EntryInv(l) && Carries(e, l);
        C.ByeMatchesLog(l.call.f.reason);
        hide C.HangupReason, C.ShouldSendBYE, Extends, Inv;
      }
    }
  }

  // ---- the objects -----------------------------------------------------------------------

  class EntryObject {
    const localTag: string
    const callID: string
    const call: C.Call

    constructor (localTag: string, callID: string, call: C.Call)
      ensures this.localTag == localTag && this.callID == callID && this.call == call
    {
      this.localTag, this.callID, this.call := localTag, callID, call;
    }
  }

  /** The part of the SIP server its mutex guards. */
  class ServerObject {
    var byTag: map<string, EntryObject>
    var byCall: map<string, EntryObject>
    var stopped: bool

    function Index(): Maps<EntryObject>
      reads this
    {
      Maps.Maps(byTag, byCall)
    }

    constructor ()
      ensures Index() == Maps.Maps(map[], map[]) && !stopped
    {
      byTag, byCall, stopped := map[], map[], false;
    }

    method Store(e: EntryObject)
      modifies this`byTag, this`byCall
      ensures Index() == StoreIn(old(Index()), e, e.localTag, e.callID)
    {
      byTag := byTag[e.localTag := e];
      byCall := byCall[e.callID := e];
    }

    method Remove(e: EntryObject)
      modifies this`byTag, this`byCall
      ensures Index() == RemoveFrom(old(Index()), e, e.localTag, e.callID)
    {
      if e.localTag in byTag && byTag[e.localTag] == e {
        byTag := byTag - {e.localTag};
      }
      if e.callID in byCall && byCall[e.callID] == e {
        byCall := byCall - {e.callID};
      }
    }

    /** A request without a To tag or Call-ID carries an empty one. */
    method Lookup(toTag: string, callID: string) returns (e: EntryObject?)
      ensures match Find(Index(), toTag, callID) case None => e == null case Some(x) => e == x
    {
      if toTag != "" {
        if toTag in byTag {
          return byTag[toTag];
        }
      }
      if callID != "" {
        return if callID in byCall then byCall[callID] else null;
      }
      return null;
    }

    /** Empties the maps once and closes the calls that were filed by tag. */
    method Close()
      requires forall e :: e in byTag.Values ==> e.call.Valid()
      modifies this, set e | e in byTag.Values :: e.call
      ensures stopped
      ensures old(stopped) ==> Index() == old(Index())
      ensures !old(stopped) ==> Index() == Maps.Maps(map[], map[])
      ensures !old(stopped) ==> forall e :: e in old(byTag).Values ==> e.call.Valid() && e.call.closed
    {
      if stopped {
        return;
      }
      stopped := true;
      var entries := byTag.Values;
      byTag, byCall := map[], map[];
      var rest := entries;
      while rest != {}
        invariant rest <= entries && stopped && byTag == map[] && byCall == map[]
        invariant forall e :: e in entries ==> e.call.Valid()
        invariant forall e :: e in entries - rest ==> e.call.closed
        decreases |rest|
      {
        var e :| e in rest;
        e.call.CloseWithReason(C.NoReason);
        rest := rest - {e};
      }
    }
  }
}
