/**
 * The mutable state of fb_auto.js: progress counters, the message logs (one
 * global, one per tab), the per-tab data map, the JSON audit files, and the
 * decision block that processes one join request against the shared
 * configuration and the database.
 */
module Automation {
  import opened Wrappers
  import opened Registry
  import opened Payments
  import opened Moderation

  /** The per-tab record of the `tabData` map (the Playwright page is not modelled). */
  datatype TabData = TabData(currentCount: int, totalMembers: int, logMessages: seq<string>)

  /** The JSON audit files, by file name; an absent or blank file reads as no entries. */
  type AuditFiles = map<string, seq<AuditEntry>>

  function EntriesOf(files: AuditFiles, file: string): seq<AuditEntry> {
    if file in files then files[file] else []
  }

  /** Read the file's entries, push the new one, write the array back. */
  function AppendEntry(files: AuditFiles, file: string, e: AuditEntry): (r: AuditFiles)
    ensures r.Keys == files.Keys + {file}
    ensures |EntriesOf(r, file)| == |EntriesOf(files, file)| + 1
    ensures EntriesOf(r, file)[..|EntriesOf(files, file)|] == EntriesOf(files, file)
    ensures EntriesOf(r, file)[|EntriesOf(files, file)|] == e
    ensures forall f :: f in files && f != file ==> r[f] == files[f]
  {
    files[file := EntriesOf(files, file) + [e]]
  }

  /** The eligible list the decision block hands to the database; `None` when the class lookup throws. */
  function EligibleFor(multiTab: bool, className: Option<string>, classes: map<string, ClassConfig>,
                       current: seq<string>): (r: Option<seq<string>>)
    ensures r.None? <==> multiTab && Truthy(className) && className.value !in classes
    ensures !(multiTab && Truthy(className)) ==> r == Some(current)
    ensures multiTab && Truthy(className) && className.value in classes ==> r == Some(classes[className.value].eligibleProductIds)
  {
    if multiTab && Truthy(className) then
      if className.value in classes then Some(classes[className.value].eligibleProductIds) else None
    else Some(current)
  }

  /** What consulting the database does, as a function of the state before it. */
  function Consultation(multiTab: bool, className: Option<string>, classes: map<string, ClassConfig>,
                        current: seq<string>, rows: seq<PaymentRow>, users: set<string>,
                        f: Fields, facebookUserId: string, fault: StoreFault, msgs: DeclineMessages): (t: Transition)
    ensures EligibleFor(multiTab, className, classes, current).None? ==> t == Transition(Threw, rows)
    ensures |t.rows| == |rows|
    ensures !(t.outcome.Returned? && t.outcome.result.Approved?) ==> t.rows == rows
  {
    match EligibleFor(multiTab, className, classes, current)
    case None => Transition(Threw, rows)
    case Some(eligible) => Process(rows, users, f.transactionId, eligible, facebookUserId, fault, msgs)
  }

  /** The class whose audit files a record goes to: the tab's class in multi-tab mode, else the selected class. */
  function AuditClass(multiTab: bool, className: Option<string>, selected: Option<string>): (c: Option<string>)
    ensures c == className || c == selected
    ensures multiTab && Truthy(className) ==> c == className
    ensures !multiTab ==> c == selected
  {
    if multiTab && Truthy(className) then className else selected
  }

  /** The audit files after a record has been logged. */
  function AuditAfter(files: AuditFiles, auditClass: Option<string>, d: MemberData, clock: Clock): (r: AuditFiles)
    ensures !Truthy(auditClass) || AuditKindOf(d.approvalStatus) == NoAuditLog ==> r == files
    ensures Truthy(auditClass) && AuditKindOf(d.approvalStatus) == ApprovalsLog ==>
              var file := ApprovalsFile(auditClass.value);
              EntriesOf(r, file) == EntriesOf(files, file) + [ApprovalEntry(auditClass.value, d, clock)]
    ensures Truthy(auditClass) && AuditKindOf(d.approvalStatus) == DeclinesLog ==>
              var file := DeclinesFile(auditClass.value);
              EntriesOf(r, file) == EntriesOf(files, file) + [DeclineEntry(auditClass.value, d, clock)]
  {
    if !Truthy(auditClass) then files
    else match AuditKindOf(d.approvalStatus)
      case ApprovalsLog => AppendEntry(files, ApprovalsFile(auditClass.value), ApprovalEntry(auditClass.value, d, clock))
      case DeclinesLog => AppendEntry(files, DeclinesFile(auditClass.value), DeclineEntry(auditClass.value, d, clock))
      case NoAuditLog => files
  }

  /** Logging a record appends at most one entry to one file and never touches the others. */
  lemma AuditAfterAppendsOnly(files: AuditFiles, auditClass: Option<string>, d: MemberData, clock: Clock)
    ensures var r := AuditAfter(files, auditClass, d, clock);
            && files.Keys <= r.Keys && |r.Keys - files.Keys| <= 1
            && forall f :: f in files ==>
                 && |files[f]| <= |r[f]| <= |files[f]| + 1
                 && r[f][..|files[f]|] == files[f]
  {
    var r := AuditAfter(files, auditClass, d, clock);
    if Truthy(auditClass) && AuditKindOf(d.approvalStatus) != NoAuditLog {
      var file := if AuditKindOf(d.approvalStatus) == ApprovalsLog then ApprovalsFile(auditClass.value)
                  else DeclinesFile(auditClass.value);
      assert r.Keys == files.Keys + {file};
      assert r.Keys - files.Keys <= {file};
    } else {
      assert r == files;
    }
  }

  /** The module-level state of fb_auto.js. */
  class Automator {
    var currentProcessingCount: int
    var totalMembers: int
    var logMessages: seq<string>
    var tabData: map<string, TabData>
    var isMultiTabMode: bool
    var auditFiles: AuditFiles

    /** Every message buffer holds at most 20 entries. */
    ghost predicate Valid()
      reads this
    {
      && |logMessages| <= LOG_LIMIT
      && forall c :: c in tabData ==> |tabData[c].logMessages| <= LOG_LIMIT
    }

    constructor (files: AuditFiles)
      ensures Valid()
      ensures currentProcessingCount == 0 && totalMembers == 0 && logMessages == []
      ensures tabData == map[] && !isMultiTabMode && auditFiles == files
    {
      currentProcessingCount := 0;
      totalMembers := 0;
      logMessages := [];
      tabData := map[];
      isMultiTabMode := false;
      auditFiles := files;
    }

    /**
     * `addLogMessage`: push a timestamped entry, keeping the 20 most recent,
     * into the tab's buffer when multi-tab mode is on and the class has a
     * tab, otherwise into the global buffer.
     */
    method AddLogMessage(message: string, className: Option<string>, timestamp: string)
      requires Valid()
      modifies this
      ensures Valid()
      ensures var entry := FormatLogEntry(timestamp, message);
              if isMultiTabMode && Truthy(className) && className.value in old(tabData) then
                && logMessages == old(logMessages)
                && tabData == old(tabData)[className.value :=
                     old(tabData)[className.value].(logMessages := PushBounded(old(tabData)[className.value].logMessages, entry))]
              else
                && logMessages == PushBounded(old(logMessages), entry)
                && tabData == old(tabData)
      ensures currentProcessingCount == old(currentProcessingCount) && totalMembers == old(totalMembers)
      ensures isMultiTabMode == old(isMultiTabMode) && auditFiles == old(auditFiles)
    {
      var entry := FormatLogEntry(timestamp, message);
      if isMultiTabMode && Truthy(className) && className.value in tabData {
        var data := tabData[className.value];
        tabData := tabData[className.value := data.(logMessages := PushBounded(data.logMessages, entry))];
      } else {
        logMessages := PushBounded(logMessages, entry);
      }
    }

    /** `initializeTabData`: a fresh, zeroed record for the class (replacing any earlier one). */
    method InitializeTabData(className: string)
      requires Valid()
      modifies this
      ensures Valid()
      ensures tabData == old(tabData)[className := TabData(0, 0, [])]
      ensures logMessages == old(logMessages) && currentProcessingCount == old(currentProcessingCount)
      ensures totalMembers == old(totalMembers) && isMultiTabMode == old(isMultiTabMode)
      ensures auditFiles == old(auditFiles)
    {
      tabData := tabData[className := TabData(0, 0, [])];
    }

    /** `updateTabProcessingCount`: set the tab's count, and its total only when one is given; unknown classes are ignored. */
    method UpdateTabProcessingCount(className: string, current: int, total: Option<int>)
      requires Valid()
      modifies this
      ensures Valid()
      ensures className !in old(tabData) ==> tabData == old(tabData)
      ensures className in old(tabData) ==>
                tabData == old(tabData)[className := old(tabData)[className].(
                  currentCount := current,
                  totalMembers := total.GetOr(old(tabData)[className].totalMembers))]
      ensures logMessages == old(logMessages) && currentProcessingCount == old(currentProcessingCount)
      ensures totalMembers == old(totalMembers) && isMultiTabMode == old(isMultiTabMode)
      ensures auditFiles == old(auditFiles)
    {
      if className in tabData {
        var data := tabData[className].(currentCount := current);
        if total.Some? {
          data := data.(totalMembers := total.value);
        }
        tabData := tabData[className := data];
      }
    }

    /** The scrape's progress reset once the requests are counted: per tab in multi-tab mode, else global. */
    method StartBatch(className: Option<string>, found: nat)
      requires Valid()
      modifies this
      ensures Valid()
      ensures isMultiTabMode && Truthy(className) ==>
                && currentProcessingCount == old(currentProcessingCount) && totalMembers == old(totalMembers)
                && (className.value in old(tabData) ==>
                      tabData == old(tabData)[className.value := old(tabData)[className.value].(currentCount := 0, totalMembers := found)])
                && (className.value !in old(tabData) ==> tabData == old(tabData))
      ensures !(isMultiTabMode && Truthy(className)) ==>
                currentProcessingCount == 0 && totalMembers == found && tabData == old(tabData)
      ensures logMessages == old(logMessages) && isMultiTabMode == old(isMultiTabMode)
      ensures auditFiles == old(auditFiles)
    {
      if isMultiTabMode && Truthy(className) {
        UpdateTabProcessingCount(className.value, 0, Some(found));
      } else {
        totalMembers := found;
        currentProcessingCount := 0;
      }
    }

    /** The scrape loop's per-request progress update. */
    method MarkProgress(className: Option<string>, current: nat)
      requires Valid()
      modifies this
      ensures Valid()
      ensures isMultiTabMode && Truthy(className) ==>
                && currentProcessingCount == old(currentProcessingCount)
                && (className.value in old(tabData) ==>
                      tabData == old(tabData)[className.value := old(tabData)[className.value].(currentCount := current)])
                && (className.value !in old(tabData) ==> tabData == old(tabData))
      ensures !(isMultiTabMode && Truthy(className)) ==>
                currentProcessingCount == current && tabData == old(tabData)
      ensures logMessages == old(logMessages) && totalMembers == old(totalMembers)
      ensures isMultiTabMode == old(isMultiTabMode) && auditFiles == old(auditFiles)
    {
      if isMultiTabMode && Truthy(className) {
        UpdateTabProcessingCount(className.value, current, None);
      } else {
        currentProcessingCount := current;
      }
    }

    /** `logApprovalToJSON`: append an approval entry to the class's approvals file. */
    method LogApprovalToJSON(className: string, d: MemberData, clock: Clock)
      modifies this
      ensures auditFiles == AppendEntry(old(auditFiles), ApprovalsFile(className), ApprovalEntry(className, d, clock))
      ensures logMessages == old(logMessages) && tabData == old(tabData) && isMultiTabMode == old(isMultiTabMode)
      ensures currentProcessingCount == old(currentProcessingCount) && totalMembers == old(totalMembers)
    {
      var file := ApprovalsFile(className);
      var entries := EntriesOf(auditFiles, file);
      auditFiles := auditFiles[file := entries + [ApprovalEntry(className, d, clock)]];
    }

    /** `logDeclineToJSON`: append a decline entry to the class's declines file. */
    method LogDeclineToJSON(className: string, d: MemberData, clock: Clock)
      modifies this
      ensures auditFiles == AppendEntry(old(auditFiles), DeclinesFile(className), DeclineEntry(className, d, clock))
      ensures logMessages == old(logMessages) && tabData == old(tabData) && isMultiTabMode == old(isMultiTabMode)
      ensures currentProcessingCount == old(currentProcessingCount) && totalMembers == old(totalMembers)
    {
      var file := DeclinesFile(className);
      var entries := EntriesOf(auditFiles, file);
      auditFiles := auditFiles[file := entries + [DeclineEntry(className, d, clock)]];
    }

    /**
     * The database call of the decision block: choose the eligible list,
     * swap it into the shared configuration, call the ledger and restore the
     * previous list on a normal return. When the call throws, the swapped
     * list stays in place.
     */
    method ConsultDatabase(cfg: Config, db: Database, className: Option<string>, f: Fields,
                           facebookUserId: string, fault: StoreFault) returns (out: DbOutcome)
      modifies cfg, db
      ensures var t := Consultation(isMultiTabMode, className, old(cfg.classes), old(cfg.eligibleProductIds),
                                    old(db.payments), old(db.users), f, facebookUserId, fault, old(cfg.messages));
              out == t.outcome && db.payments == t.rows
      ensures db.declineLog == old(db.declineLog) + DeclineLogFor(f.phone, f.transactionId, facebookUserId, out)
      ensures db.users == old(db.users) && db.memberLogs == old(db.memberLogs)
      ensures out.Returned? ==> cfg.eligibleProductIds == old(cfg.eligibleProductIds)
      ensures var chosen := EligibleFor(isMultiTabMode, className, old(cfg.classes), old(cfg.eligibleProductIds));
              out.Threw? ==> cfg.eligibleProductIds == chosen.GetOr(old(cfg.eligibleProductIds))
      ensures cfg.classes == old(cfg.classes) && cfg.classOrder == old(cfg.classOrder)
      ensures cfg.selectedClass == old(cfg.selectedClass) && cfg.groupUrl == old(cfg.groupUrl)
      ensures cfg.messages == old(cfg.messages)
    {
      var eligible: seq<string>;
      if isMultiTabMode && Truthy(className) {
        if className.value !in cfg.classes {
          // `config.CLASSES[className]` is undefined: reading its list throws.
          return Threw;
        }
        eligible := cfg.classes[className.value].eligibleProductIds;
      } else {
        eligible := cfg.eligibleProductIds;
      }
      var original := cfg.eligibleProductIds;
      cfg.eligibleProductIds := eligible;
      out := db.ProcessPaymentApproval(cfg, f.phone, f.transactionId, facebookUserId, fault);
      if out.Returned? {
        cfg.eligibleProductIds := original;
      }
    }

    /**
     * The decision block of `scrapeMemberRequests` for one request whose
     * buttons were found: read the answers, decline without asking the
     * database when they are missing, otherwise consult the database; then
     * save the member record and write the audit entry. Toasts, log messages
     * and button clicks are not modelled.
     */
    method ProcessMember(cfg: Config, db: Database, className: Option<string>, memberName: string,
                         facebookUserId: string, items: seq<(string, string)>, dbFault: StoreFault,
                         saveFault: bool, clock: Clock)
      returns (data: MemberData, consulted: Option<DbOutcome>)
      modifies this, cfg, db
      ensures var answers := CollectAnswers(items);
              var route := RouteRequest(answers, old(cfg.messages));
              var base := InitialMemberData(memberName, facebookUserId);
              && (consulted.Some? <==> route.Consult?)
              && (!route.Consult? ==>
                    && data == WithoutDatabase(base, answers, route, old(cfg.messages))
                    && db.payments == old(db.payments) && db.declineLog == old(db.declineLog)
                    && cfg.eligibleProductIds == old(cfg.eligibleProductIds))
              && (route.Consult? ==>
                    var t := Consultation(old(isMultiTabMode), className, old(cfg.classes), old(cfg.eligibleProductIds),
                                          old(db.payments), old(db.users), route.fields, facebookUserId, dbFault,
                                          old(cfg.messages));
                    && consulted == Some(t.outcome)
                    && db.payments == t.rows
                    && data == AfterDatabase(WithAnswers(base, answers, route.fields), t.outcome, old(cfg.messages))
                    && (t.outcome.Returned? ==> cfg.eligibleProductIds == old(cfg.eligibleProductIds)))
      ensures db.memberLogs == old(db.memberLogs) + (if saveFault then [] else [BuildMemberLogRow(data)])
      ensures auditFiles == AuditAfter(old(auditFiles), AuditClass(old(isMultiTabMode), className, old(cfg.selectedClass)),
                                       data, clock)
      ensures db.users == old(db.users)
      ensures cfg.classes == old(cfg.classes) && cfg.selectedClass == old(cfg.selectedClass)
      ensures cfg.messages == old(cfg.messages)
      ensures logMessages == old(logMessages) && tabData == old(tabData) && isMultiTabMode == old(isMultiTabMode)
      ensures currentProcessingCount == old(currentProcessingCount) && totalMembers == old(totalMembers)
    {
      var answers := CollectAnswers(items);
      var route := RouteRequest(answers, cfg.messages);
      data := InitialMemberData(memberName, facebookUserId);
      if route.Consult? {
        data := WithAnswers(data, answers, route.fields);
        var out := ConsultDatabase(cfg, db, className, route.fields, facebookUserId, dbFault);
        consulted := Some(out);
        data := AfterDatabase(data, out, cfg.messages);
      } else {
        consulted := None;
        data := WithoutDatabase(data, answers, route, cfg.messages);
      }
      var _ := db.SaveMemberLog(data, saveFault);
      RecordAudit(AuditClass(isMultiTabMode, className, cfg.selectedClass), data, clock);
    }

    /** The audit step of the decision block: approvals and declines go to their files, a failed decline nowhere. */
    method RecordAudit(auditClass: Option<string>, data: MemberData, clock: Clock)
      modifies this
      ensures auditFiles == AuditAfter(old(auditFiles), auditClass, data, clock)
      ensures logMessages == old(logMessages) && tabData == old(tabData) && isMultiTabMode == old(isMultiTabMode)
      ensures currentProcessingCount == old(currentProcessingCount) && totalMembers == old(totalMembers)
    {
      if Truthy(auditClass) {
        match AuditKindOf(data.approvalStatus)
        case ApprovalsLog => LogApprovalToJSON(auditClass.value, data, clock);
        case DeclinesLog => LogDeclineToJSON(auditClass.value, data, clock);
        case NoAuditLog =>
      }
    }
  }

  /**
   * One answer to the class prompt of `promptClassSelection`: the answer is
   * resolved against the available classes, and a configured choice is
   * applied with `setSelectedClass`, which hands that class's group URL and
   * eligible ids to the rest of the run. 'ALL', null and an invalid answer
   * leave the configuration as it was.
   */
  method PromptClassSelection(cfg: Config, answer: string) returns (s: Selection)
    requires cfg.Valid()
    modifies cfg
    ensures cfg.Valid()
    ensures s == SelectClass(answer, old(cfg.classOrder), old(cfg.classes))
    ensures cfg.classes == old(cfg.classes) && cfg.classOrder == old(cfg.classOrder) && cfg.messages == old(cfg.messages)
    ensures s.Chosen? ==> && cfg.selectedClass == Some(s.name)
                          && cfg.groupUrl == cfg.classes[s.name].groupUrl
                          && cfg.eligibleProductIds == cfg.classes[s.name].eligibleProductIds
    ensures !s.Chosen? ==> && cfg.selectedClass == old(cfg.selectedClass)
                           && cfg.groupUrl == old(cfg.groupUrl)
                           && cfg.eligibleProductIds == old(cfg.eligibleProductIds)
  {
    var order := cfg.GetAvailableClasses();
    s := SelectClass(answer, order, cfg.classes);
    if s.Chosen? {
      var applied := cfg.SetSelectedClass(s.name);
    }
  }

  /**
   * A request with no usable answers, or a missing field, never reaches the
   * database, and its record is a decline: 'no_answers' with the no-answers
   * message, or 'missing_info' with the reason for what is missing.
   */
  lemma UnconsultedIsDecline(items: seq<(string, string)>, memberName: string, facebookUserId: string,
                              msgs: DeclineMessages)
    ensures var answers := CollectAnswers(items);
            var route := RouteRequest(answers, msgs);
            !route.Consult? ==>
              var d := WithoutDatabase(InitialMemberData(memberName, facebookUserId), answers, route, msgs);
              && AuditKindOf(d.approvalStatus) == DeclinesLog
              && (answers == [] ==> d.approvalStatus == Some(STATUS_NO_ANSWERS) && d.declineReason == Some(msgs.noAnswers))
              && (answers != [] ==> d.approvalStatus == Some(STATUS_MISSING_INFO)
                                    && d.declineReason == Some(MissingReason(ExtractFields(ObjectValues(answers)), msgs)))
  {
  }

  /** A database failure is recorded as a decline with the database-error message, and goes to the declines file. */
  lemma DatabaseErrorDeclines(d: MemberData, msgs: DeclineMessages)
    ensures var r := AfterDatabase(d, Threw, msgs);
            && r.approvalStatus == Some(STATUS_DATABASE_ERROR)
            && r.declineReason == Some(msgs.databaseError)
            && AuditKindOf(r.approvalStatus) == DeclinesLog
  {
  }
}
