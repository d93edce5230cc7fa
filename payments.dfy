/**
 * The payment ledger of db_automation.js: the `product_payment` table joined
 * with `"User"`, the decision whether a claimed transaction id admits its
 * sender, the approval update, the decline-reason log and the member
 * processing log.
 */
module Payments {
  import opened Wrappers
  import opened Registry

  /** One `product_payment` row (the columns the decision reads or writes). */
  datatype PaymentRow = PaymentRow(
    id: string,              // `pp.id`, compared through its text form
    userId: string,
    transactionId: string,
    productId: string,
    isApproved: bool,
    approvedId: Option<string>)

  /**
   * The lookup's WHERE clause: the row's owner exists in `"User"` (the join)
   * and either its transaction id or the text of its own id equals the claim.
   */
  predicate Visible(r: PaymentRow, users: set<string>, tx: string) {
    r.userId in users && (r.transactionId == tx || r.id == tx)
  }

  /** Index of the first row the lookup returns, if any. */
  function FirstMatch(rows: seq<PaymentRow>, users: set<string>, tx: string): (k: Option<nat>)
    ensures k.Some? ==> && k.value < |rows|
                        && Visible(rows[k.value], users, tx)
                        && forall j :: 0 <= j < k.value ==> !Visible(rows[j], users, tx)
    ensures k.None? <==> forall j :: 0 <= j < |rows| ==> !Visible(rows[j], users, tx)
  {
    if rows == [] then None
    else if Visible(rows[0], users, tx) then Some(0)
    else match FirstMatch(rows[1..], users, tx)
      case None => None
      case Some(k) => Some(k + 1)
  }

  /** What the checks conclude about a claim, in the order the source runs them. */
  datatype Decision =
    | NotFound
    | NotEligible(row: PaymentRow)
    | AlreadyApproved(row: PaymentRow)
    | Approve(row: PaymentRow)

  /**
   * Not found exactly when no row is visible; otherwise the decision names a
   * visible row of the table, and the eligibility check comes before the
   * approval check.
   */
  function Decide(rows: seq<PaymentRow>, users: set<string>, tx: string, eligible: seq<string>): (d: Decision)
    ensures d.NotFound? <==> forall j :: 0 <= j < |rows| ==> !Visible(rows[j], users, tx)
    ensures !d.NotFound? ==> d.row in rows && Visible(d.row, users, tx)
    ensures d.NotEligible? ==> d.row.productId !in eligible
    ensures d.AlreadyApproved? ==> d.row.productId in eligible && d.row.isApproved
    ensures d.Approve? ==> d.row.productId in eligible && !d.row.isApproved
  {
    match FirstMatch(rows, users, tx)
    case None => NotFound
    case Some(k) =>
      if rows[k].productId !in eligible then NotEligible(rows[k])
      else if rows[k].isApproved then AlreadyApproved(rows[k])
      else Approve(rows[k])
  }

  /** The UPDATE's WHERE clause: `user_id = $1 AND transaction_id = $2`. */
  predicate Targeted(r: PaymentRow, userId: string, tx: string) {
    r.userId == userId && r.transactionId == tx
  }

  function MarkApproved(r: PaymentRow, approvedId: string): PaymentRow {
    r.(isApproved := true, approvedId := Some(approvedId))
  }

  /** The table after the UPDATE: targeted rows approved, every other row as it was. */
  function ApplyUpdate(rows: seq<PaymentRow>, userId: string, tx: string, approvedId: string): (r: seq<PaymentRow>)
    ensures |r| == |rows|
    ensures forall i :: 0 <= i < |rows| && Targeted(rows[i], userId, tx) ==> r[i] == MarkApproved(rows[i], approvedId)
    ensures forall i :: 0 <= i < |rows| && !Targeted(rows[i], userId, tx) ==> r[i] == rows[i]
  {
    if rows == [] then []
    else
      var head := if Targeted(rows[0], userId, tx) then MarkApproved(rows[0], approvedId) else rows[0];
      [head] + ApplyUpdate(rows[1..], userId, tx, approvedId)
  }

  /** The UPDATE's `rowCount`: the number of rows its WHERE clause selects. */
  function CountTargeted(rows: seq<PaymentRow>, userId: string, tx: string): (n: nat)
    ensures n == |set i | 0 <= i < |rows| && Targeted(rows[i], userId, tx)|
    ensures n <= |rows|
    ensures n == 0 <==> forall i :: 0 <= i < |rows| ==> !Targeted(rows[i], userId, tx)
  {
    if rows == [] then 0
    else
      var m := |rows| - 1;
      TargetedSplit(rows, userId, tx);
      CountTargeted(rows[..m], userId, tx) + (if Targeted(rows[m], userId, tx) then 1 else 0)
  }

  /** The rows selected in a table are those selected before its last row, and the last row if selected. */
  lemma TargetedSplit(rows: seq<PaymentRow>, userId: string, tx: string)
    requires rows != []
    ensures var m := |rows| - 1;
            (set i | 0 <= i < |rows| && Targeted(rows[i], userId, tx))
            == (set i | 0 <= i < m && Targeted(rows[..m][i], userId, tx))
               + (if Targeted(rows[m], userId, tx) then {m} else {})
  {
  }

  /** What `processPaymentApproval` resolves to. */
  datatype ApprovalResult =
    | Approved(rowCount: nat, approvedId: string)
    | Declined(rowCount: nat, declineReason: string)

  /** Where the store fails, if it does (connection/query failure). */
  datatype StoreFault = NoFault | FailOnLookup | FailOnUpdate

  /** A normal return, or the rethrown store error. */
  datatype DbOutcome = Returned(result: ApprovalResult) | Threw

  datatype Transition = Transition(outcome: DbOutcome, rows: seq<PaymentRow>)

  /** One call of `processPaymentApproval`, as a function of the table before it. */
  function Process(rows: seq<PaymentRow>, users: set<string>, tx: string, eligible: seq<string>,
                   approvedId: string, fault: StoreFault, msgs: DeclineMessages): (t: Transition)
    ensures |t.rows| == |rows|
    ensures !(t.outcome.Returned? && t.outcome.result.Approved?) ==> t.rows == rows
    ensures t.outcome.Returned? && t.outcome.result.Approved? ==> t.outcome.result.approvedId == approvedId
  {
    if fault == FailOnLookup then Transition(Threw, rows)
    else
      var d := Decide(rows, users, tx, eligible);
      if d.NotFound? then Transition(Returned(Declined(0, msgs.transactionNotFound)), rows)
      else if d.NotEligible? then Transition(Returned(Declined(0, msgs.productNotEligible)), rows)
      else if d.AlreadyApproved? then Transition(Returned(Declined(0, msgs.alreadyApproved)), rows)
      else if fault == FailOnUpdate then Transition(Threw, rows)
      else
        var out := Approved(CountTargeted(rows, d.row.userId, tx), approvedId);
        var updated := ApplyUpdate(rows, d.row.userId, tx, approvedId);
        assert |updated| == |rows|;
        Transition(Returned(out), updated)
  }

  /** A call approves exactly when the store does not fail and the checks approve. */
  lemma ApprovesOnlyWhenDecided(rows: seq<PaymentRow>, users: set<string>, tx: string, eligible: seq<string>,
                                approvedId: string, fault: StoreFault, msgs: DeclineMessages)
    ensures var t := Process(rows, users, tx, eligible, approvedId, fault, msgs);
            (t.outcome.Returned? && t.outcome.result.Approved?)
            <==> fault == NoFault && Decide(rows, users, tx, eligible).Approve?
  {
    var d := Decide(rows, users, tx, eligible);
    if fault == NoFault && d.Approve? {
      ApprovalTransition(rows, users, tx, eligible, approvedId, d.row, msgs);
    }
  }

  /** The row chosen by the lookup when `k` is the first visible match. */
  predicate FirstVisibleAt(rows: seq<PaymentRow>, users: set<string>, tx: string, k: nat) {
    && k < |rows|
    && Visible(rows[k], users, tx)
    && forall j :: 0 <= j < k ==> !Visible(rows[j], users, tx)
  }

  lemma FirstMatchIs(rows: seq<PaymentRow>, users: set<string>, tx: string, k: nat)
    requires FirstVisibleAt(rows, users, tx, k)
    ensures FirstMatch(rows, users, tx) == Some(k)
  {
  }

  // ---- Properties of one call ----

  /** An unknown transaction id declines with "not found", count 0, table unchanged. */
  lemma NotFoundDeclines(rows: seq<PaymentRow>, users: set<string>, tx: string, eligible: seq<string>, approvedId: string,
                         msgs: DeclineMessages)
    requires forall j :: 0 <= j < |rows| ==> !(rows[j].userId in users && (rows[j].transactionId == tx || rows[j].id == tx))
    ensures Process(rows, users, tx, eligible, approvedId, NoFault, msgs)
            == Transition(Returned(Declined(0, msgs.transactionNotFound)), rows)
  {
    assert forall j :: 0 <= j < |rows| ==> !Visible(rows[j], users, tx);
  }

  /**
   * Only the first matching row decides: whatever follows it in the table,
   * and whatever later matching rows say, the outcome is the same.
   */
  lemma {:induction false} FirstRowDecides(rows: seq<PaymentRow>, rest: seq<PaymentRow>, users: set<string>,
                                           tx: string, eligible: seq<string>, k: nat)
    requires FirstVisibleAt(rows, users, tx, k)
    ensures Decide(rows, users, tx, eligible) == Decide(rows[..k + 1] + rest, users, tx, eligible)
  {
    var alt := rows[..k + 1] + rest;
    assert alt[k] == rows[k];
    assert forall j :: 0 <= j < k ==> alt[j] == rows[j];
    FirstMatchIs(rows, users, tx, k);
    FirstMatchIs(alt, users, tx, k);
  }

  /** Eligibility is checked first: an ineligible product declines even when the row is already approved. */
  lemma IneligibleDeclines(rows: seq<PaymentRow>, users: set<string>, tx: string, eligible: seq<string>,
                           approvedId: string, k: nat, msgs: DeclineMessages)
    requires FirstVisibleAt(rows, users, tx, k)
    requires rows[k].productId !in eligible
    ensures Process(rows, users, tx, eligible, approvedId, NoFault, msgs)
            == Transition(Returned(Declined(0, msgs.productNotEligible)), rows)
  {
    FirstMatchIs(rows, users, tx, k);
  }

  /** An eligible but already approved row declines with "already approved", table unchanged. */
  lemma ApprovedDeclines(rows: seq<PaymentRow>, users: set<string>, tx: string, eligible: seq<string>,
                         approvedId: string, k: nat, msgs: DeclineMessages)
    requires FirstVisibleAt(rows, users, tx, k)
    requires rows[k].productId in eligible && rows[k].isApproved
    ensures Process(rows, users, tx, eligible, approvedId, NoFault, msgs)
            == Transition(Returned(Declined(0, msgs.alreadyApproved)), rows)
  {
    FirstMatchIs(rows, users, tx, k);
  }

  /**
   * An eligible, unapproved row is approved: exactly the rows of the matched
   * user with the claimed transaction id are marked, nothing else changes,
   * and the count is the number of such rows.
   */
  lemma ApprovalMarksExactly(rows: seq<PaymentRow>, users: set<string>, tx: string, eligible: seq<string>,
                             approvedId: string, k: nat, msgs: DeclineMessages)
    requires FirstVisibleAt(rows, users, tx, k)
    requires rows[k].productId in eligible && !rows[k].isApproved
    ensures var t := Process(rows, users, tx, eligible, approvedId, NoFault, msgs);
            && t.outcome == Returned(Approved(CountTargeted(rows, rows[k].userId, tx), approvedId))
            && |t.rows| == |rows|
            && (forall i :: 0 <= i < |rows| && rows[i].userId == rows[k].userId && rows[i].transactionId == tx
                  ==> t.rows[i] == rows[i].(isApproved := true, approvedId := Some(approvedId)))
            && (forall i :: 0 <= i < |rows| && !(rows[i].userId == rows[k].userId && rows[i].transactionId == tx)
                  ==> t.rows[i] == rows[i])
  {
    ApproveStep(rows, users, tx, eligible, approvedId, k, msgs);
  }

  /** An eligible, unapproved first match is approved by the UPDATE on its user and the claimed id. */
  lemma ApproveStep(rows: seq<PaymentRow>, users: set<string>, tx: string, eligible: seq<string>,
                    approvedId: string, k: nat, msgs: DeclineMessages)
    requires FirstVisibleAt(rows, users, tx, k)
    requires rows[k].productId in eligible && !rows[k].isApproved
    ensures Process(rows, users, tx, eligible, approvedId, NoFault, msgs)
            == Transition(Returned(Approved(CountTargeted(rows, rows[k].userId, tx), approvedId)),
                          ApplyUpdate(rows, rows[k].userId, tx, approvedId))
  {
    DecidesApprove(rows, users, tx, eligible, k);
    ApprovalTransition(rows, users, tx, eligible, approvedId, rows[k], msgs);
  }

  lemma DecidesApprove(rows: seq<PaymentRow>, users: set<string>, tx: string, eligible: seq<string>, k: nat)
    requires FirstVisibleAt(rows, users, tx, k)
    requires rows[k].productId in eligible && !rows[k].isApproved
    ensures Decide(rows, users, tx, eligible) == Approve(rows[k])
  {
    FirstMatchIs(rows, users, tx, k);
  }

  /** Once the checks approve row `r`, the call returns the UPDATE's count and the updated table. */
  lemma ApprovalTransition(rows: seq<PaymentRow>, users: set<string>, tx: string, eligible: seq<string>,
                           approvedId: string, r: PaymentRow, msgs: DeclineMessages)
    requires Decide(rows, users, tx, eligible) == Approve(r)
    ensures Process(rows, users, tx, eligible, approvedId, NoFault, msgs)
            == Transition(Returned(Approved(CountTargeted(rows, r.userId, tx), approvedId)),
                          ApplyUpdate(rows, r.userId, tx, approvedId))
  {
  }

  /** A failing store yields no result and leaves the table as it was. */
  lemma StoreFailureChangesNothing(rows: seq<PaymentRow>, users: set<string>, tx: string, eligible: seq<string>,
                                   approvedId: string, fault: StoreFault, msgs: DeclineMessages)
    requires fault != NoFault
    ensures var t := Process(rows, users, tx, eligible, approvedId, fault, msgs);
            t.rows == rows && (t.outcome.Threw? || t.outcome.result.Declined?)
    ensures fault == FailOnLookup ==> Process(rows, users, tx, eligible, approvedId, fault, msgs).outcome.Threw?
    ensures fault == FailOnUpdate ==>
              (Process(rows, users, tx, eligible, approvedId, fault, msgs).outcome.Threw?
               <==> Decide(rows, users, tx, eligible).Approve?)
  {
  }

  /** Every decline carries a non-empty reason and a zero count. */
  lemma DeclinesCarryReason(rows: seq<PaymentRow>, users: set<string>, tx: string, eligible: seq<string>,
                            approvedId: string, fault: StoreFault, msgs: DeclineMessages)
    requires AllWorded(msgs)
    ensures var t := Process(rows, users, tx, eligible, approvedId, fault, msgs);
            t.outcome.Returned? && t.outcome.result.Declined? ==>
              t.outcome.result.declineReason != "" && t.outcome.result.rowCount == 0 && t.rows == rows
  {
  }

  // ---- Properties across calls ----

  /** Only the approval flag and the approver change; rows are never added, removed or un-approved. */
  lemma {:induction false} ProcessKeepsRows(rows: seq<PaymentRow>, users: set<string>, tx: string,
                                            eligible: seq<string>, approvedId: string, fault: StoreFault, msgs: DeclineMessages)
    ensures var t := Process(rows, users, tx, eligible, approvedId, fault, msgs);
            && |t.rows| == |rows|
            && forall i :: 0 <= i < |rows| ==>
                 && t.rows[i].(isApproved := rows[i].isApproved, approvedId := rows[i].approvedId) == rows[i]
                 && (rows[i].isApproved ==> t.rows[i].isApproved)
  {
  }

  /** Two tables that agree on what the lookup sees give the same first match. */
  lemma {:induction false} FirstMatchRespectsKeys(a: seq<PaymentRow>, b: seq<PaymentRow>, users: set<string>, tx: string)
    requires |a| == |b|
    requires forall i :: 0 <= i < |a| ==> Visible(a[i], users, tx) == Visible(b[i], users, tx)
    ensures FirstMatch(a, users, tx) == FirstMatch(b, users, tx)
  {
    if a != [] {
      FirstMatchRespectsKeys(a[1..], b[1..], users, tx);
    }
  }

  /**
   * At most once: after an approval whose match came through the
   * transaction id, repeating the same call declines with "already approved"
   * and changes nothing.
   */
  lemma AtMostOnce(rows: seq<PaymentRow>, users: set<string>, tx: string, eligible: seq<string>,
                   approvedId: string, again: string, k: nat, msgs: DeclineMessages)
    requires FirstVisibleAt(rows, users, tx, k) && rows[k].transactionId == tx
    requires rows[k].productId in eligible && !rows[k].isApproved
    ensures var t := Process(rows, users, tx, eligible, approvedId, NoFault, msgs);
            && t.outcome.Returned? && t.outcome.result.Approved?
            && Process(t.rows, users, tx, eligible, again, NoFault, msgs)
               == Transition(Returned(Declined(0, msgs.alreadyApproved)), t.rows)
  {
    ApproveStep(rows, users, tx, eligible, approvedId, k, msgs);
    var t := ApplyUpdate(rows, rows[k].userId, tx, approvedId);
    StillFirstAfterUpdate(rows, users, tx, rows[k].userId, approvedId, k);
    assert t[k] == MarkApproved(rows[k], approvedId);
    ApprovedDeclines(t, users, tx, eligible, again, k, msgs);
  }

  /** The row the lookup found first is still found first after the UPDATE. */
  lemma StillFirstAfterUpdate(rows: seq<PaymentRow>, users: set<string>, tx: string, userId: string,
                              approvedId: string, k: nat)
    requires FirstVisibleAt(rows, users, tx, k)
    ensures FirstVisibleAt(ApplyUpdate(rows, userId, tx, approvedId), users, tx, k)
  {
    UpdateKeepsFirstMatch(rows, users, tx, userId, approvedId);
    FirstMatchIs(rows, users, tx, k);
  }

  /** The UPDATE never changes which row the lookup finds first. */
  lemma UpdateKeepsFirstMatch(rows: seq<PaymentRow>, users: set<string>, tx: string, userId: string, approvedId: string)
    ensures FirstMatch(ApplyUpdate(rows, userId, tx, approvedId), users, tx) == FirstMatch(rows, users, tx)
  {
    var t := ApplyUpdate(rows, userId, tx, approvedId);
    forall i | 0 <= i < |rows|
      ensures Visible(rows[i], users, tx) == Visible(t[i], users, tx)
    {
      if Targeted(rows[i], userId, tx) {
        assert t[i] == MarkApproved(rows[i], approvedId);
      }
    }
    FirstMatchRespectsKeys(rows, t, users, tx);
  }

  /**
   * The id fallback is not at most once: when the match came through the
   * row's own id, the UPDATE (which filters on transaction id) leaves that
   * row unapproved, so the same call approves again.
   */
  lemma IdFallbackApprovesAgain(rows: seq<PaymentRow>, users: set<string>, tx: string, eligible: seq<string>,
                                approvedId: string, again: string, k: nat, msgs: DeclineMessages)
    requires FirstVisibleAt(rows, users, tx, k) && rows[k].transactionId != tx
    requires rows[k].productId in eligible && !rows[k].isApproved
    ensures var t := Process(rows, users, tx, eligible, approvedId, NoFault, msgs);
            && t.outcome.Returned? && t.outcome.result.Approved?
            && Process(t.rows, users, tx, eligible, again, NoFault, msgs).outcome.Returned?
            && Process(t.rows, users, tx, eligible, again, NoFault, msgs).outcome.result.Approved?
  {
    ApproveStep(rows, users, tx, eligible, approvedId, k, msgs);
    var t := ApplyUpdate(rows, rows[k].userId, tx, approvedId);
    StillFirstAfterUpdate(rows, users, tx, rows[k].userId, approvedId, k);
    assert !Targeted(rows[k], rows[k].userId, tx);
    assert t[k] == rows[k];
    ApproveStep(t, users, tx, eligible, again, k, msgs);
  }

  /** A concrete instance: a claim equal to a row's id approves twice, touching no row either time. */
  lemma IdFallbackExample(msgs: DeclineMessages)
    ensures var rows := [PaymentRow("42", "u1", "TX9", "P1", false, None)];
            var t := Process(rows, {"u1"}, "42", ["P1"], "fb1", NoFault, msgs);
            && t == Transition(Returned(Approved(0, "fb1")), rows)
            && Process(t.rows, {"u1"}, "42", ["P1"], "fb2", NoFault, msgs) == Transition(Returned(Approved(0, "fb2")), rows)
  {
    var rows := [PaymentRow("42", "u1", "TX9", "P1", false, None)];
    assert FirstMatch(rows, {"u1"}, "42") == Some(0);
    assert ApplyUpdate(rows, "u1", "42", "fb1") == rows;
    assert ApplyUpdate(rows, "u1", "42", "fb2") == rows;
  }

  // ---- The processing logs ----

  /** One line of decline_reasons.log (the timestamp is not modelled). */
  datatype DeclineLogEntry = DeclineLogEntry(phone: string, transactionId: string,
                                             facebookUserId: string, declineReason: string)

  /** What a call appends to decline_reasons.log: one entry on each decline, none otherwise. */
  function DeclineLogFor(phone: string, tx: string, approvedId: string, out: DbOutcome): (log: seq<DeclineLogEntry>)
    ensures |log| <= 1
    ensures |log| == 1 <==> out.Returned? && out.result.Declined?
    ensures |log| == 1 ==> && log[0].phone == phone && log[0].transactionId == tx
                           && log[0].facebookUserId == approvedId
                           && log[0].declineReason == out.result.declineReason
  {
    if out.Returned? && out.result.Declined? then [DeclineLogEntry(phone, tx, approvedId, out.result.declineReason)]
    else []
  }

  /** The member record the automation hands to `saveMemberLog`; `None` is JavaScript `null`. */
  datatype MemberData = MemberData(
    memberName: Option<string>,
    memberUserId: Option<string>,
    memberQA: seq<(string, string)>,
    memberPhone: Option<string>,
    memberTrxId: Option<string>,
    approvalStatus: Option<string>,
    declineReason: Option<string>,
    facebookUserId: Option<string>)

  /** One `member_processing_logs` row (the creation time is not modelled). */
  datatype MemberLogRow = MemberLogRow(
    memberName: string,
    memberUserId: Option<string>,
    memberQA: seq<(string, string)>,
    memberPhone: Option<string>,
    memberTrxId: Option<string>,
    approvalStatus: string,
    declineReason: Option<string>,
    facebookUserId: Option<string>)

  /** No column is stored as an empty string. */
  predicate NoEmptyText(row: MemberLogRow) {
    && row.memberName != ""
    && row.approvalStatus != ""
    && (row.memberUserId.Some? ==> row.memberUserId.value != "")
    && (row.memberPhone.Some? ==> row.memberPhone.value != "")
    && (row.memberTrxId.Some? ==> row.memberTrxId.value != "")
    && (row.declineReason.Some? ==> row.declineReason.value != "")
    && (row.facebookUserId.Some? ==> row.facebookUserId.value != "")
  }

  /** The INSERT's values: present values kept, a missing name stored as 'Unknown', a missing status as 'unknown', anything else missing as NULL. */
  function BuildMemberLogRow(d: MemberData): (row: MemberLogRow)
    ensures NoEmptyText(row)
    ensures row.memberQA == d.memberQA
    ensures row.memberName == (if Truthy(d.memberName) then d.memberName.value else "Unknown")
    ensures row.approvalStatus == (if Truthy(d.approvalStatus) then d.approvalStatus.value else "unknown")
    ensures Truthy(d.memberUserId) ==> row.memberUserId == d.memberUserId
    ensures Truthy(d.memberPhone) ==> row.memberPhone == d.memberPhone
    ensures Truthy(d.memberTrxId) ==> row.memberTrxId == d.memberTrxId
    ensures Truthy(d.declineReason) ==> row.declineReason == d.declineReason
    ensures Truthy(d.facebookUserId) ==> row.facebookUserId == d.facebookUserId
  {
    MemberLogRow(
      OrDefault(d.memberName, "Unknown"),
      OrNull(d.memberUserId),
      d.memberQA,
      OrNull(d.memberPhone),
      OrNull(d.memberTrxId),
      OrDefault(d.approvalStatus, "unknown"),
      OrNull(d.declineReason),
      OrNull(d.facebookUserId))
  }

  /** The database the automation talks to, with the decline-reason log file beside it. */
  class Database {
    var payments: seq<PaymentRow>      // product_payment
    var users: set<string>             // ids present in "User"
    var declineLog: seq<DeclineLogEntry> // decline_reasons.log
    var memberLogs: seq<MemberLogRow>  // member_processing_logs

    constructor (payments: seq<PaymentRow>, users: set<string>)
      ensures this.payments == payments && this.users == users
      ensures declineLog == [] && memberLogs == []
    {
      this.payments := payments;
      this.users := users;
      declineLog := [];
      memberLogs := [];
    }

    /** `logDeclineReason`: append one line to the decline log. */
    method LogDeclineReason(phone: string, tx: string, reason: string, facebookUserId: string)
      modifies this
      ensures declineLog == old(declineLog) + [DeclineLogEntry(phone, tx, facebookUserId, reason)]
      ensures payments == old(payments) && users == old(users) && memberLogs == old(memberLogs)
    {
      declineLog := declineLog + [DeclineLogEntry(phone, tx, facebookUserId, reason)];
    }

    /**
     * `processPaymentApproval`: look the claim up, decide, and on approval
     * mark the matched user's rows with this transaction id. The eligible
     * product list is read from the shared configuration object. The phone
     * reaches only the decline log.
     */
    method ProcessPaymentApproval(cfg: Config, phone: string, tx: string, approvedId: string, fault: StoreFault)
      returns (out: DbOutcome)
      modifies this
      ensures var t := Process(old(payments), old(users), tx, cfg.eligibleProductIds, approvedId, fault, cfg.messages);
              out == t.outcome && payments == t.rows
      ensures declineLog == old(declineLog) + DeclineLogFor(phone, tx, approvedId, out)
      ensures users == old(users) && memberLogs == old(memberLogs)
    {
      if fault == FailOnLookup {
        return Threw;
      }
      var found := FirstMatch(payments, users, tx);
      ghost var d := Decide(payments, users, tx, cfg.eligibleProductIds);
      if found.None? {
        assert d == NotFound;
        LogDeclineReason(phone, tx, cfg.messages.transactionNotFound, approvedId);
        return Returned(Declined(0, cfg.messages.transactionNotFound));
      }
      var row := payments[found.value];
      if row.productId !in cfg.eligibleProductIds {
        assert d == NotEligible(row);
        LogDeclineReason(phone, tx, cfg.messages.productNotEligible, approvedId);
        return Returned(Declined(0, cfg.messages.productNotEligible));
      }
      if row.isApproved {
        assert d == AlreadyApproved(row);
        LogDeclineReason(phone, tx, cfg.messages.alreadyApproved, approvedId);
        return Returned(Declined(0, cfg.messages.alreadyApproved));
      }
      assert d == Approve(row);
      if fault == FailOnUpdate {
        return Threw;
      }
      ApprovalTransition(payments, users, tx, cfg.eligibleProductIds, approvedId, row, cfg.messages);
      var count := CountTargeted(payments, row.userId, tx);
      payments := ApplyUpdate(payments, row.userId, tx, approvedId);
      out := Returned(Approved(count, approvedId));
    }

    /** `saveMemberLog`: insert one row, or fail with the table unchanged. */
    method SaveMemberLog(d: MemberData, fault: bool) returns (rowCount: Option<nat>)
      modifies this
      ensures fault ==> rowCount == None && memberLogs == old(memberLogs)
      ensures !fault ==> rowCount == Some(1) && memberLogs == old(memberLogs) + [BuildMemberLogRow(d)]
      ensures payments == old(payments) && users == old(users) && declineLog == old(declineLog)
    {
      if fault {
        return None;
      }
      memberLogs := memberLogs + [BuildMemberLogRow(d)];
      rowCount := Some(1);
    }
  }
}
