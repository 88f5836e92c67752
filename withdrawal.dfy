/** The withdrawal-qualification panel of the client dashboard: a five-stage fee table, the
    state slots of the panel, the handlers that fold server replies into them, and the choice of
    what the panel shows. Server replies are values handed to the handlers; the three fetches
    issued on mount are independent events that may arrive in any order. */
module Withdrawal {
  import opened Wrappers

  /** One row of the fee table. */
  datatype Stage = Stage(stage: int, amount: int)

  /** The fee table the panel ships with. */
  const Stages: seq<Stage> :=
    [Stage(1, 1000), Stage(2, 1500), Stage(3, 2000), Stage(4, 5000), Stage(5, 10000)]

  /** The fee the payment view shows for `currentStage`, read as `stages[currentStage - 1].amount`.
      Outside the table the lookup yields `undefined` and reading `.amount` throws: None. */
  function StageAmount(currentStage: int): (r: Option<int>)
    ensures r.Some? <==> 1 <= currentStage <= |Stages|
    ensures r.Some? ==> exists row :: row in Stages && row == Stage(currentStage, r.value)
  {
    if 1 <= currentStage <= |Stages| then
      assert Stages[currentStage - 1] in Stages;
      Some(Stages[currentStage - 1].amount)
    else None
  }

  /** The table lists stages 1 to 5 in order, and each fee is larger than the one before it. */
  lemma StageTableShape()
    ensures |Stages| == 5
    ensures forall i :: 0 <= i < |Stages| ==> Stages[i].stage == i + 1
    ensures forall i, j :: 0 <= i < j < |Stages| ==> Stages[i].amount < Stages[j].amount
    ensures StageAmount(1) == Some(1000) && StageAmount(5) == Some(10000)
  {
  }

  /** A pending withdrawal, of which the panel uses only how many there are. */
  datatype PendingWithdrawal = PendingWithdrawal(id: int)

  /** A file chosen in the receipt input. */
  datatype Receipt = Receipt(fileName: string)

  /** The body of a stage-status reply. The values are stored as received, unchecked. */
  datatype StageStatus = StageStatus(currentStage: int, isProcessing: bool, isCompleted: bool)

  /** How a request ends for the client: it resolves with a status code and a body (the client
      resolves every 2xx reply), or it rejects. */
  datatype Reply<T> = Resolved(status: int, data: T) | Rejected(failure: Failure)

  /** A rejected request: no response at all, or an error status with the `error` field of its
      body ("" when the field is missing or falsy). */
  datatype Failure = NoResponse | ErrorStatus(status: int, errorField: string)

  const PendingLoadError := "Failed to load pending withdrawals. Please try again later."
  const QualificationError := "Failed to check qualification. Please try again later."
  const StatusLoadError := "Failed to load your current status. Please try again later."
  const UploadNotAccepted := "Error processing your receipt upload. Please try again later."
  const UploadFailed := "Failed to upload receipt. Please try again later."
  const ProceedFailed := "Failed to proceed to the next stage. Please try again later."
  const CopiedMessage := "Details copied to clipboard"

  /** The panel's state slots, as one value. */
  datatype PanelState = PanelState(
    pendingWithdrawals: seq<PendingWithdrawal>,
    qualified: bool,
    currentStage: int,
    paymentMethod: string,
    receipt: Option<Receipt>,
    status: string,
    isProcessing: bool,
    isCompleted: bool,
    error: string,
    infoMessage: string)

  /** The slots when the panel mounts. */
  const Initial := PanelState([], false, 1, "", None, "pending", false, false, "", "")

  /** Everything that changes the panel: the replies to its five requests, the two inputs,
      the clipboard write and the timer that clears its confirmation. A click on Upload
      changes no slot; it only decides whether a request goes out (`ClickUpload`), and the
      reply to that request is a later event. */
  datatype Event =
    | PendingLoaded(pendingReply: Reply<seq<PendingWithdrawal>>)
    | QualificationLoaded(qualifiedReply: Reply<bool>)
    | StatusLoaded(statusReply: Reply<StageStatus>)
    | PaymentMethodChosen(choice: string)
    | ReceiptChosen(file: Option<Receipt>)
    | UploadReplied(uploadReply: Reply<string>)
    | ProceedClicked(proceedReply: Reply<int>)
    | ClipboardWritten(succeeded: bool)
    | InfoTimerFired

  /** The error text an upload produces when it does not reach the 200 branch: the server's
      `error` field for a 400 that carries one, a fixed message otherwise. */
  function UploadError(reply: Reply<string>): string {
    match reply
    case Resolved(_, _) => UploadNotAccepted
    case Rejected(ErrorStatus(400, field)) => if field != "" then field else UploadFailed
    case Rejected(_) => UploadFailed
  }

  /** The new slots after one event. */
  function Step(s: PanelState, e: Event): PanelState {
    match e
    case PendingLoaded(r) =>
      if r.Resolved? then s.(pendingWithdrawals := r.data) else s.(error := PendingLoadError)
    case QualificationLoaded(r) =>
      if r.Resolved? then s.(qualified := r.data) else s.(error := QualificationError)
    case StatusLoaded(r) =>
      if r.Resolved? then
        s.(currentStage := r.data.currentStage, isProcessing := r.data.isProcessing,
           isCompleted := r.data.isCompleted)
      else s.(error := StatusLoadError)
    case PaymentMethodChosen(m) => s.(paymentMethod := m)
    case ReceiptChosen(f) => s.(receipt := f)
    case UploadReplied(r) =>
      if r.Resolved? && r.status == 200 then
        s.(status := "processing", isProcessing := true, infoMessage := r.data)
      else s.(error := UploadError(r))
    case ProceedClicked(r) =>
      if r.Resolved? then s.(currentStage := r.data, isProcessing := false, isCompleted := false)
      else s.(error := ProceedFailed)
    case ClipboardWritten(ok) => if ok then s.(infoMessage := CopiedMessage) else s
    case InfoTimerFired => s.(infoMessage := "")
  }

  /** The slots after a sequence of events, in order. */
  function Run(s: PanelState, events: seq<Event>): PanelState
    decreases |events|
  {
    if events == [] then s else Run(Step(s, events[0]), events[1..])
  }

  // ---------------------------------------------------------------------------------------
  // What each handler does

  /** The reply to an upload is applied without looking at the receipt or the payment method:
      both are checked, if at all, only when the button is clicked, and the reply keeps them. */
  lemma UploadReplyIgnoresInputs(s: PanelState, r: Reply<string>, m: string, f: Option<Receipt>)
    ensures Step(s.(paymentMethod := m, receipt := f), UploadReplied(r)) ==
            Step(s, UploadReplied(r)).(paymentMethod := m, receipt := f)
    ensures Step(s, UploadReplied(r)).receipt == s.receipt
  {
  }

  /** A receipt cleared after the click, while the request is under way, does not stop the
      200 reply from marking the stage processing. */
  lemma UploadReplyAfterReceiptCleared(s: PanelState, checkBack: string)
    ensures Run(s, [ReceiptChosen(None), UploadReplied(Resolved(200, checkBack))]) ==
            s.(receipt := None, status := "processing", isProcessing := true, infoMessage := checkBack)
  {
    var reply := UploadReplied(Resolved(200, checkBack));
    var cleared := Step(s, ReceiptChosen(None));
    assert [ReceiptChosen(None), reply][1..] == [reply];
    assert Run(s, [ReceiptChosen(None), reply]) == Run(cleared, [reply]);
    assert [reply][1..] == [];
    assert Run(cleared, [reply]) == Step(cleared, reply);
  }

  /** A 200 upload marks the stage processing and shows the server's `check_back` text, and
      changes nothing else: the receipt stays selected, and the stage, the completion flag, the
      qualification, the payment method, the pending list and the error are kept. */
  lemma UploadAccepted(s: PanelState, checkBack: string)
    ensures Step(s, UploadReplied(Resolved(200, checkBack))) ==
            s.(status := "processing", isProcessing := true, infoMessage := checkBack)
    ensures var t := Step(s, UploadReplied(Resolved(200, checkBack)));
      t.receipt == s.receipt && t.paymentMethod == s.paymentMethod &&
      t.currentStage == s.currentStage && t.isCompleted == s.isCompleted
  {
  }

  /** A 400 whose body has an `error` field shows that text verbatim; any other failure, and
      any 2xx other than 200, shows a fixed message. Only `error` changes. */
  lemma UploadNotAcceptedEffects(s: PanelState, r: Reply<string>)
    requires !(r.Resolved? && r.status == 200)
    ensures Step(s, UploadReplied(r)) == s.(error := UploadError(r))
    ensures (r.Rejected? && r.failure.ErrorStatus? && r.failure.status == 400 &&
             r.failure.errorField != "") ==> UploadError(r) == r.failure.errorField
    ensures r.Resolved? ==> UploadError(r) == UploadNotAccepted
    ensures r.Rejected? && (r.failure.NoResponse? || r.failure.status != 400) ==>
              UploadError(r) == UploadFailed
  {
  }

  /** A successful advance stores the returned stage as it is and clears both stage flags,
      changing nothing else; a failed one sets only the error. Qualification is never touched. */
  lemma ProceedEffects(s: PanelState, r: Reply<int>)
    ensures var t := Step(s, ProceedClicked(r));
      t.qualified == s.qualified &&
      (r.Resolved? ==> t == s.(currentStage := r.data, isProcessing := false, isCompleted := false)) &&
      (r.Rejected? ==> t == s.(error := ProceedFailed))
  {
  }

  /** A copy shows the confirmation and the timer clears whatever message is showing; neither
      touches the stage fields or the error. */
  lemma ClipboardEffects(s: PanelState, ok: bool)
    ensures var t := Step(s, ClipboardWritten(ok));
      (ok ==> t.infoMessage == CopiedMessage) && t.(infoMessage := s.infoMessage) == s
    ensures Step(s, InfoTimerFired) == s.(infoMessage := "")
  {
  }

  /** No event ever puts an empty string into a non-empty error slot. */
  lemma StepKeepsError(s: PanelState, e: Event)
    requires s.error != ""
    ensures Step(s, e).error != ""
  {
  }

  /** Running events one after another is running them in two parts. */
  lemma {:induction false} RunAppend(s: PanelState, events: seq<Event>, e: Event)
    ensures Run(s, events + [e]) == Step(Run(s, events), e)
    decreases |events|
  {
    if events == [] {
      assert [e][1..] == [];
    } else {
      assert (events + [e])[1..] == events[1..] + [e];
      RunAppend(Step(s, events[0]), events[1..], e);
    }
  }

  /** Once an error is showing, no sequence of events clears it. */
  lemma {:induction false} ErrorNeverCleared(s: PanelState, events: seq<Event>)
    requires s.error != ""
    ensures Run(s, events).error != ""
    decreases |events|
  {
    if events != [] {
      StepKeepsError(s, events[0]);
      ErrorNeverCleared(Step(s, events[0]), events[1..]);
    }
  }

  /** Only a resolved qualification reply changes `qualified`. */
  lemma {:induction false} QualifiedOnlyFromItsReply(s: PanelState, events: seq<Event>)
    requires forall i :: 0 <= i < |events| ==>
               !(events[i].QualificationLoaded? && events[i].qualifiedReply.Resolved?)
    ensures Run(s, events).qualified == s.qualified
    decreases |events|
  {
    if events != [] {
      QualifiedOnlyFromItsReply(Step(s, events[0]), events[1..]);
    }
  }

  // ---------------------------------------------------------------------------------------
  // The three fetches issued on mount, arriving in any order

  /** A reply to one of the three fetches issued on mount. */
  predicate IsMountReply(e: Event) {
    e.PendingLoaded? || e.QualificationLoaded? || e.StatusLoaded?
  }

  /** The error text a mount reply leaves, if it failed. */
  function MountFailure(e: Event): Option<string> {
    match e
    case PendingLoaded(Rejected(_)) => Some(PendingLoadError)
    case QualificationLoaded(Rejected(_)) => Some(QualificationError)
    case StatusLoaded(Rejected(_)) => Some(StatusLoadError)
    case _ => None
  }

  /** The message of the last failed reply among `events`. */
  function LastFailure(events: seq<Event>): Option<string>
    decreases |events|
  {
    if events == [] then None
    else if MountFailure(events[|events| - 1]).Some? then MountFailure(events[|events| - 1])
    else LastFailure(events[..|events| - 1])
  }

  /** The list carried by the last successful pending-withdrawals reply. */
  function LastPending(events: seq<Event>): Option<seq<PendingWithdrawal>>
    decreases |events|
  {
    if events == [] then None
    else
      var e := events[|events| - 1];
      if e.PendingLoaded? && e.pendingReply.Resolved? then Some(e.pendingReply.data)
      else LastPending(events[..|events| - 1])
  }

  /** The flag carried by the last successful qualification reply. */
  function LastQualified(events: seq<Event>): Option<bool>
    decreases |events|
  {
    if events == [] then None
    else
      var e := events[|events| - 1];
      if e.QualificationLoaded? && e.qualifiedReply.Resolved? then Some(e.qualifiedReply.data)
      else LastQualified(events[..|events| - 1])
  }

  /** The status carried by the last successful status reply. */
  function LastStatus(events: seq<Event>): Option<StageStatus>
    decreases |events|
  {
    if events == [] then None
    else
      var e := events[|events| - 1];
      if e.StatusLoaded? && e.statusReply.Resolved? then Some(e.statusReply.data)
      else LastStatus(events[..|events| - 1])
  }

  /** The slots after mount replies, described slice by slice: each slice holds what the last
      successful reply of its own kind carried, and the one shared error slot holds the message
      of the last failure of any kind. */
  function AfterMountReplies(s: PanelState, events: seq<Event>): PanelState {
    var st := LastStatus(events).GetOr(StageStatus(s.currentStage, s.isProcessing, s.isCompleted));
    s.(pendingWithdrawals := LastPending(events).GetOr(s.pendingWithdrawals),
       qualified := LastQualified(events).GetOr(s.qualified),
       currentStage := st.currentStage, isProcessing := st.isProcessing,
       isCompleted := st.isCompleted,
       error := LastFailure(events).GetOr(s.error))
  }

  /** Any sequence of mount replies, in any order and with any repetitions, leaves the slots
      that the slice-by-slice description gives. */
  lemma {:induction false} MountRepliesBySlice(s: PanelState, events: seq<Event>)
    requires forall i :: 0 <= i < |events| ==> IsMountReply(events[i])
    ensures Run(s, events) == AfterMountReplies(s, events)
    decreases |events|
  {
    if events != [] {
      var init := events[..|events| - 1];
      var e := events[|events| - 1];
      assert events == init + [e];
      MountRepliesBySlice(s, init);
      RunAppend(s, init, e);
    }
  }

  /** When the three mount fetches each answer once, in whatever order, every slice ends up
      with its own reply's data if that reply succeeded, and the error slot holds the message
      of whichever failed reply came last. */
  lemma MountFetchesAnyOrder(s: PanelState, p: Reply<seq<PendingWithdrawal>>, q: Reply<bool>,
                             st: Reply<StageStatus>, order: seq<Event>)
    requires multiset(order) == multiset([PendingLoaded(p), QualificationLoaded(q), StatusLoaded(st)])
    ensures var t := Run(s, order);
      t.pendingWithdrawals == (if p.Resolved? then p.data else s.pendingWithdrawals) &&
      t.qualified == (if q.Resolved? then q.data else s.qualified) &&
      t.currentStage == (if st.Resolved? then st.data.currentStage else s.currentStage) &&
      t.isProcessing == (if st.Resolved? then st.data.isProcessing else s.isProcessing) &&
      t.isCompleted == (if st.Resolved? then st.data.isCompleted else s.isCompleted) &&
      t.error == LastFailure(order).GetOr(s.error) &&
      (t.error == s.error || t.error == PendingLoadError || t.error == QualificationError ||
       t.error == StatusLoadError) &&
      t.(pendingWithdrawals := s.pendingWithdrawals, qualified := s.qualified,
         currentStage := s.currentStage, isProcessing := s.isProcessing,
         isCompleted := s.isCompleted, error := s.error) == s
  {
    var three := [PendingLoaded(p), QualificationLoaded(q), StatusLoaded(st)];
    forall i | 0 <= i < |order| ensures order[i] in three && IsMountReply(order[i]) {
      assert order[i] in multiset(order);
    }
    MountRepliesBySlice(s, order);
    KindsOnce(order, three);
    LastFailureIsOneOf(order);
  }

  /** The only reply of each kind in `order` is the one in `three`, so the last of its kind. */
  lemma KindsOnce(order: seq<Event>, three: seq<Event>)
    requires |three| == 3 && three[0].PendingLoaded? && three[1].QualificationLoaded? &&
             three[2].StatusLoaded?
    requires multiset(order) == multiset(three)
    ensures LastPending(order) ==
              (if three[0].pendingReply.Resolved? then Some(three[0].pendingReply.data) else None)
    ensures LastQualified(order) ==
              (if three[1].qualifiedReply.Resolved? then Some(three[1].qualifiedReply.data) else None)
    ensures LastStatus(order) ==
              (if three[2].statusReply.Resolved? then Some(three[2].statusReply.data) else None)
  {
    forall i | 0 <= i < |order| ensures order[i] in three {
      assert order[i] in multiset(order);
    }
    assert three[0] in multiset(order) && three[1] in multiset(order) && three[2] in multiset(order);
    LastPendingOfUnique(order, three[0]);
    LastQualifiedOfUnique(order, three[1]);
    LastStatusOfUnique(order, three[2]);
  }

  lemma {:induction false} LastPendingOfUnique(events: seq<Event>, e: Event)
    requires e.PendingLoaded? && e in events
    requires forall i :: 0 <= i < |events| && events[i].PendingLoaded? ==> events[i] == e
    ensures LastPending(events) ==
              (if e.pendingReply.Resolved? then Some(e.pendingReply.data) else None)
    decreases |events|
  {
    var init := events[..|events| - 1];
    if events[|events| - 1] != e {
      assert e in init by {
        var k :| 0 <= k < |events| && events[k] == e;
        assert k < |events| - 1 && init[k] == e;
      }
      LastPendingOfUnique(init, e);
    } else if !e.pendingReply.Resolved? {
      LastPendingNone(init, e);
    }
  }

  lemma {:induction false} LastPendingNone(events: seq<Event>, e: Event)
    requires e.PendingLoaded? && !e.pendingReply.Resolved?
    requires forall i :: 0 <= i < |events| && events[i].PendingLoaded? ==> events[i] == e
    ensures LastPending(events) == None
    decreases |events|
  {
    if events != [] {
      LastPendingNone(events[..|events| - 1], e);
    }
  }

  lemma {:induction false} LastQualifiedOfUnique(events: seq<Event>, e: Event)
    requires e.QualificationLoaded? && e in events
    requires forall i :: 0 <= i < |events| && events[i].QualificationLoaded? ==> events[i] == e
    ensures LastQualified(events) ==
              (if e.qualifiedReply.Resolved? then Some(e.qualifiedReply.data) else None)
    decreases |events|
  {
    var init := events[..|events| - 1];
    if events[|events| - 1] != e {
      assert e in init by {
        var k :| 0 <= k < |events| && events[k] == e;
        assert k < |events| - 1 && init[k] == e;
      }
      LastQualifiedOfUnique(init, e);
    } else if !e.qualifiedReply.Resolved? {
      LastQualifiedNone(init, e);
    }
  }

  lemma {:induction false} LastQualifiedNone(events: seq<Event>, e: Event)
    requires e.QualificationLoaded? && !e.qualifiedReply.Resolved?
    requires forall i :: 0 <= i < |events| && events[i].QualificationLoaded? ==> events[i] == e
    ensures LastQualified(events) == None
    decreases |events|
  {
    if events != [] {
      LastQualifiedNone(events[..|events| - 1], e);
    }
  }

  lemma {:induction false} LastStatusOfUnique(events: seq<Event>, e: Event)
    requires e.StatusLoaded? && e in events
    requires forall i :: 0 <= i < |events| && events[i].StatusLoaded? ==> events[i] == e
    ensures LastStatus(events) ==
              (if e.statusReply.Resolved? then Some(e.statusReply.data) else None)
    decreases |events|
  {
    var init := events[..|events| - 1];
    if events[|events| - 1] != e {
      assert e in init by {
        var k :| 0 <= k < |events| && events[k] == e;
        assert k < |events| - 1 && init[k] == e;
      }
      LastStatusOfUnique(init, e);
    } else if !e.statusReply.Resolved? {
      LastStatusNone(init, e);
    }
  }

  lemma {:induction false} LastStatusNone(events: seq<Event>, e: Event)
    requires e.StatusLoaded? && !e.statusReply.Resolved?
    requires forall i :: 0 <= i < |events| && events[i].StatusLoaded? ==> events[i] == e
    ensures LastStatus(events) == None
    decreases |events|
  {
    if events != [] {
      LastStatusNone(events[..|events| - 1], e);
    }
  }

  /** The last failure is always one of the three mount-failure messages. */
  lemma {:induction false} LastFailureIsOneOf(events: seq<Event>)
    ensures LastFailure(events).None? || LastFailure(events).value in
              {PendingLoadError, QualificationError, StatusLoadError}
    decreases |events|
  {
    if events != [] {
      LastFailureIsOneOf(events[..|events| - 1]);
    }
  }

  // ---------------------------------------------------------------------------------------
  // What the panel shows

  /** The four branches of the panel's body. */
  datatype ViewKind = WithdrawalForm | StageCompletedView | ProcessingView | PaymentRequiredView

  /** The branch the panel renders: the withdrawal form whenever the client is qualified,
      otherwise the completed notice before the processing notice before the payment form. */
  function SelectView(qualified: bool, isProcessing: bool, isCompleted: bool): ViewKind {
    if qualified then WithdrawalForm
    else if isCompleted then StageCompletedView
    else if isProcessing then ProcessingView
    else PaymentRequiredView
  }

  /** The payment instructions shown under the method selector. */
  datatype Instructions = NoInstructions | PayPalAddress | BankDetails

  /** What the panel's body holds. */
  datatype Body =
    | Form
    | CompletedNotice(stage: int)
    | ProcessingNotice(stage: int, total: int)
    | PaymentRequired(stage: int, amount: int, instructions: Instructions)

  /** What the panel shows: the error and info lines when non-empty, the pending-withdrawals
      heading or the warning in its place, and the body. */
  datatype Screen = Screen(errorLine: Option<string>, infoLine: Option<string>,
                           pendingHeading: bool, body: Body)

  /** The rendered panel; None when rendering throws, which happens when the payment form
      looks up a stage outside the fee table. */
  function Render(s: PanelState): Option<Screen> {
    var errorLine := if s.error != "" then Some(s.error) else None;
    var infoLine := if s.infoMessage != "" then Some(s.infoMessage) else None;
    var heading := |s.pendingWithdrawals| > 0;
    match SelectView(s.qualified, s.isProcessing, s.isCompleted)
    case WithdrawalForm => Some(Screen(errorLine, infoLine, heading, Form))
    case StageCompletedView => Some(Screen(errorLine, infoLine, heading, CompletedNotice(s.currentStage)))
    case ProcessingView =>
      Some(Screen(errorLine, infoLine, heading, ProcessingNotice(s.currentStage, |Stages|)))
    case PaymentRequiredView =>
      match StageAmount(s.currentStage)
      case None => None
      case Some(amount) =>
        var instructions :=
          if s.paymentMethod == "paypal" then PayPalAddress
          else if s.paymentMethod == "bank" then BankDetails
          else NoInstructions;
        Some(Screen(errorLine, infoLine, heading, PaymentRequired(s.currentStage, amount, instructions)))
  }

  /** The states the withdrawal workflow is described by: awaiting payment, processing,
      stage completed, qualified. */
  datatype Phase = AwaitingPayment | Processing | StageCompleted | Qualified

  /** The phase read off the flags when at most one stage flag is set. */
  function PhaseOf(qualified: bool, isProcessing: bool, isCompleted: bool): Option<Phase> {
    if qualified then Some(Qualified)
    else if isProcessing && isCompleted then None
    else if isProcessing then Some(Processing)
    else if isCompleted then Some(StageCompleted)
    else Some(AwaitingPayment)
  }

  /** The view follows the phase whenever the flags describe one; when the service reports
      both stage flags, the completed notice wins. Qualification overrides every flag. */
  lemma ViewFollowsPhase(qualified: bool, isProcessing: bool, isCompleted: bool)
    ensures var v := SelectView(qualified, isProcessing, isCompleted);
      match PhaseOf(qualified, isProcessing, isCompleted)
      case Some(Qualified) => v == WithdrawalForm
      case Some(Processing) => v == ProcessingView
      case Some(StageCompleted) => v == StageCompletedView
      case Some(AwaitingPayment) => v == PaymentRequiredView
      case None => v == StageCompletedView
    ensures qualified ==> SelectView(qualified, isProcessing, isCompleted) == WithdrawalForm
  {
  }

  /** The panel renders unless it must show the payment form for a stage outside 1..5; the
      stage is stored from the server unchecked, so that can happen. */
  lemma RenderFailsOnlyOutsideTable(s: PanelState)
    ensures Render(s).None? <==>
              (SelectView(s.qualified, s.isProcessing, s.isCompleted) == PaymentRequiredView &&
               !(1 <= s.currentStage <= |Stages|))
    ensures Render(s).Some? && Render(s).value.body.PaymentRequired? ==>
              Render(s).value.body.amount == StageAmount(s.currentStage).value
  {
  }

  /** Advancing past the last stage while the service still reports the client unqualified
      stores stage 6, and the panel then fails to render. */
  lemma AdvancePastLastStage(s: PanelState)
    requires !s.qualified
    ensures Render(Step(s, ProceedClicked(Resolved(200, 6)))).None?
  {
  }

  /** The panel as mounted shows the stage-1 payment form for 1000. */
  lemma InitialScreen()
    ensures Render(Initial) == Some(Screen(None, None, false, PaymentRequired(1, 1000, NoInstructions)))
  {
  }

  // ---------------------------------------------------------------------------------------
  // The panel

  /** The panel component: its fields are the state slots, and each handler updates them
      as the reply it received dictates. */
  class WithdrawalPanel {
    var pendingWithdrawals: seq<PendingWithdrawal>
    var qualified: bool
    var currentStage: int
    var paymentMethod: string
    var receipt: Option<Receipt>
    var status: string
    var isProcessing: bool
    var isCompleted: bool
    var error: string
    var infoMessage: string

    /** The slots as one value. */
    function Snapshot(): PanelState
      reads this
    {
      PanelState(pendingWithdrawals, qualified, currentStage, paymentMethod, receipt, status,
                 isProcessing, isCompleted, error, infoMessage)
    }

    constructor()
      ensures Snapshot() == Initial
    {
      pendingWithdrawals := [];
      qualified := false;
      currentStage := 1;
      paymentMethod := "";
      receipt := None;
      status := "pending";
      isProcessing := false;
      isCompleted := false;
      error := "";
      infoMessage := "";
    }

    /** Applies the reply to GET /withdrawals/pending. */
    method FetchWithdrawals(reply: Reply<seq<PendingWithdrawal>>)
      modifies this
      ensures Snapshot() == Step(old(Snapshot()), PendingLoaded(reply))
    {
      if reply.Resolved? {
        pendingWithdrawals := reply.data;
      } else {
        error := PendingLoadError;
      }
    }

    /** Applies the reply to GET /withdrawals/qualification (its `qualified` field). */
    method CheckQualification(reply: Reply<bool>)
      modifies this
      ensures Snapshot() == Step(old(Snapshot()), QualificationLoaded(reply))
    {
      if reply.Resolved? {
        qualified := reply.data;
      } else {
        error := QualificationError;
      }
    }

    /** Applies the reply to GET /withdrawals/status/. */
    method FetchStatus(reply: Reply<StageStatus>)
      modifies this
      ensures Snapshot() == Step(old(Snapshot()), StatusLoaded(reply))
    {
      if reply.Resolved? {
        var data := reply.data;
        currentStage := data.currentStage;
        isProcessing := data.isProcessing;
        isCompleted := data.isCompleted;
      } else {
        error := StatusLoadError;
      }
    }

    /** The payment-method selector's change handler. */
    method SelectPaymentMethod(choice: string)
      modifies this
      ensures Snapshot() == Step(old(Snapshot()), PaymentMethodChosen(choice))
    {
      paymentMethod := choice;
    }

    /** The file input's change handler. */
    method SelectReceipt(file: Option<Receipt>)
      modifies this
      ensures Snapshot() == Step(old(Snapshot()), ReceiptChosen(file))
    {
      receipt := file;
    }

    /** The Upload button's click: a request goes out exactly when a receipt is selected; the
        payment method is not consulted and no slot changes. */
    method ClickUpload() returns (sent: bool)
      ensures sent <==> receipt.Some?
    {
      sent := receipt.Some?;
    }

    /** Applies the reply to POST /withdrawals/upload_receipt/ (its body's `check_back` text
        on success). */
    method ReceiveUploadReply(reply: Reply<string>)
      modifies this
      ensures Snapshot() == Step(old(Snapshot()), UploadReplied(reply))
    {
      if reply.Resolved? && reply.status == 200 {
        status := "processing";
        isProcessing := true;
        infoMessage := reply.data;
      } else {
        error := UploadError(reply);
      }
    }

    /** Applies the reply to POST /withdrawals/complete_stage/ (its `current_stage` field). */
    method ProceedToNextStage(reply: Reply<int>)
      modifies this
      ensures Snapshot() == Step(old(Snapshot()), ProceedClicked(reply))
    {
      if reply.Resolved? {
        currentStage := reply.data;
        isProcessing := false;
        isCompleted := false;
      } else {
        error := ProceedFailed;
      }
    }

    /** The continuation of a clipboard write: only a write that succeeded shows the
        confirmation. */
    method CopyToClipboard(written: bool)
      modifies this
      ensures Snapshot() == Step(old(Snapshot()), ClipboardWritten(written))
    {
      if written {
        infoMessage := CopiedMessage;
      }
    }

    /** The timer set by a successful copy, when it fires. */
    method ClearInfoMessage()
      modifies this
      ensures Snapshot() == Step(old(Snapshot()), InfoTimerFired)
    {
      infoMessage := "";
    }

    /** What the panel shows now. */
    function View(): Option<Screen>
      reads this
    {
      Render(Snapshot())
    }
  }
}
