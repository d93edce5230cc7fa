/**
 * The dashboard server of server.js: combining yearly report files, listing
 * the years that have a log directory, routing `/api/` requests and
 * rewriting static-file paths.
 */
module Reports {
  import opened Wrappers
  import opened Moderation

  // ---------------------------------------------------------------------
  // Report files (the input of combineReports)
  // ---------------------------------------------------------------------

  /** A count read from a report; `None` is a missing or falsy field, which `x || 0` reads as 0. */
  type Count = Option<int>

  function Val(c: Count): int {
    if c.Some? then c.value else 0
  }

  datatype ClassCounts = ClassCounts(approvals: Count, declines: Count, declineReasons: map<string, Count>)
  datatype SlotCounts = SlotCounts(approvals: Count, declines: Count, total: Count)
  datatype DateCounts = DateCounts(approvals: Count, declines: Count, total: Count, byClass: map<string, SlotCounts>)

  /** A parsed report.json; a missing `summary` has all three counts `None`, a missing map is empty. */
  datatype Report = Report(
    totalApprovals: Count,
    totalDeclines: Count,
    totalProcessed: Count,
    byClass: map<string, ClassCounts>,
    declineReasons: map<string, Count>,
    byDate: map<string, DateCounts>)

  // ---------------------------------------------------------------------
  // The combined report
  // ---------------------------------------------------------------------

  datatype ClassTally = ClassTally(approvals: int, declines: int, total: int, declineReasons: map<string, int>)
  datatype SlotTally = SlotTally(approvals: int, declines: int, total: int)
  datatype DateTally = DateTally(approvals: int, declines: int, total: int, byClass: map<string, SlotTally>)

  /**
   * The combined report without its timestamps. `ratesComputed` says whether
   * the two percentage rates were computed; otherwise both stay 0.
   */
  datatype Combined = Combined(
    totalApprovals: int,
    totalDeclines: int,
    totalProcessed: int,
    byClass: map<string, ClassTally>,
    byDate: map<string, DateTally>,
    declineReasons: map<string, int>,
    ratesComputed: bool)

  const EMPTY_COMBINED: Combined := Combined(0, 0, 0, map[], map[], map[], false)
  const ZERO_CLASS: ClassTally := ClassTally(0, 0, 0, map[])
  const ZERO_SLOT: SlotTally := SlotTally(0, 0, 0)
  const ZERO_DATE: DateTally := DateTally(0, 0, 0, map[])

  /** `m[k]`, or the freshly created zero entry when `k` has none yet. */
  function At<V>(m: map<string, V>, k: string, zero: V): V {
    if k in m then m[k] else zero
  }

  /**
   * `Object.keys(m).forEach(k => { if (!acc[k]) acc[k] = zero; acc[k] = add(acc[k], m[k]) })`:
   * every key of `m` is folded into its entry of `acc`, created at `zero` when absent.
   */
  function MergeWith<V, C>(acc: map<string, V>, m: map<string, C>, zero: V, add: (V, C) -> V): (r: map<string, V>)
    ensures r.Keys == acc.Keys + m.Keys
    ensures forall k :: At(r, k, zero) == if k in m then add(At(acc, k, zero), m[k]) else At(acc, k, zero)
  {
    map k | k in acc.Keys + m.Keys :: if k in m then add(At(acc, k, zero), m[k]) else acc[k]
  }

  function AddCount(v: int, c: Count): int { v + Val(c) }

  /** One report's counts for a class; the class total is recomputed as approvals + declines. */
  function AddClass(t: ClassTally, c: ClassCounts): (r: ClassTally)
    ensures t.total == t.approvals + t.declines ==> r.total == r.approvals + r.declines
    ensures r.declineReasons.Keys == t.declineReasons.Keys + c.declineReasons.Keys
  {
    ClassTally(t.approvals + Val(c.approvals), t.declines + Val(c.declines),
               t.total + (Val(c.approvals) + Val(c.declines)),
               MergeWith(t.declineReasons, c.declineReasons, 0, AddCount))
  }

  function AddSlot(t: SlotTally, c: SlotCounts): SlotTally {
    SlotTally(t.approvals + Val(c.approvals), t.declines + Val(c.declines), t.total + Val(c.total))
  }

  /** One report's counts for a date; the date total adds the report's own `total`. */
  function AddDate(t: DateTally, c: DateCounts): (r: DateTally)
    ensures r.total - t.total == Val(c.total)
    ensures r.byClass.Keys == t.byClass.Keys + c.byClass.Keys
    ensures forall k :: At(r.byClass, k, ZERO_SLOT)
                        == if k in c.byClass then AddSlot(At(t.byClass, k, ZERO_SLOT), c.byClass[k]) else At(t.byClass, k, ZERO_SLOT)
  {
    DateTally(t.approvals + Val(c.approvals), t.declines + Val(c.declines), t.total + Val(c.total),
              MergeWith(t.byClass, c.byClass, ZERO_SLOT, AddSlot))
  }

  /** The body of the `reports.forEach` callback; a falsy report is skipped. */
  function AddReport(c: Combined, r: Option<Report>): (d: Combined)
    ensures r.None? ==> d == c
    ensures d.ratesComputed == c.ratesComputed
    ensures r.Some? ==> && d.byClass.Keys == c.byClass.Keys + r.value.byClass.Keys
                        && d.declineReasons.Keys == c.declineReasons.Keys + r.value.declineReasons.Keys
                        && d.byDate.Keys == c.byDate.Keys + r.value.byDate.Keys
  {
    match r
    case None => c
    case Some(rep) =>
      c.(totalApprovals := c.totalApprovals + Val(rep.totalApprovals),
         totalDeclines := c.totalDeclines + Val(rep.totalDeclines),
         totalProcessed := c.totalProcessed + Val(rep.totalProcessed),
         byClass := MergeWith(c.byClass, rep.byClass, ZERO_CLASS, AddClass),
         declineReasons := MergeWith(c.declineReasons, rep.declineReasons, 0, AddCount),
         byDate := MergeWith(c.byDate, rep.byDate, ZERO_DATE, AddDate))
  }

  /** The accumulated object after the reports have been visited in order. */
  function Accumulate(rs: seq<Option<Report>>): (c: Combined)
    ensures !c.ratesComputed
  {
    if rs == [] then EMPTY_COMBINED else AddReport(Accumulate(rs[..|rs| - 1]), rs[|rs| - 1])
  }

  /** `combineReports`: accumulate, then compute the rates only when something was processed. */
  function CombineSpec(rs: seq<Option<Report>>): (c: Combined)
    ensures c.ratesComputed <==> c.totalProcessed > 0
  {
    var a := Accumulate(rs);
    a.(ratesComputed := a.totalProcessed > 0)
  }

  /** Two maps with the same keys that agree on every key are equal. */
  lemma MapsEqualByAt<V>(a: map<string, V>, b: map<string, V>, zero: V)
    requires a.Keys == b.Keys
    requires forall k :: At(a, k, zero) == At(b, k, zero)
    ensures a == b
  {
    forall k | k in a
      ensures a[k] == b[k]
    {
      assert At(a, k, zero) == At(b, k, zero);
    }
  }

  /** The state of a merge loop that has folded in every key of `m` outside `todo`. */
  ghost predicate MergedExcept<V, C>(r: map<string, V>, acc: map<string, V>, m: map<string, C>, todo: set<string>,
                                     zero: V, add: (V, C) -> V) {
    && todo <= m.Keys
    && r.Keys == acc.Keys + (m.Keys - todo)
    && forall k :: At(r, k, zero) == if k in m && k !in todo then add(At(acc, k, zero), m[k]) else At(acc, k, zero)
  }

  lemma MergeLoopStep<V, C>(r: map<string, V>, acc: map<string, V>, m: map<string, C>, todo: set<string>,
                            k: string, zero: V, add: (V, C) -> V)
    requires MergedExcept(r, acc, m, todo, zero, add) && k in todo
    ensures MergedExcept(r[k := add(At(r, k, zero), m[k])], acc, m, todo - {k}, zero, add)
  {
    var r' := r[k := add(At(r, k, zero), m[k])];
    assert At(r, k, zero) == At(acc, k, zero);
    forall j
      ensures At(r', j, zero) == if j in m && j !in todo - {k} then add(At(acc, j, zero), m[j]) else At(acc, j, zero)
    {
      if j != k {
        assert At(r', j, zero) == At(r, j, zero);
      }
    }
  }

  lemma MergeLoopStart<V, C>(acc: map<string, V>, m: map<string, C>, zero: V, add: (V, C) -> V)
    ensures MergedExcept(acc, acc, m, m.Keys, zero, add)
  {
  }

  lemma MergeLoopEnd<V, C>(r: map<string, V>, acc: map<string, V>, m: map<string, C>, zero: V, add: (V, C) -> V)
    requires MergedExcept(r, acc, m, {}, zero, add)
    ensures r == MergeWith(acc, m, zero, add)
  {
    MapsEqualByAt(r, MergeWith(acc, m, zero, add), zero);
  }

  /** One `Object.keys(m).forEach` merge loop, visiting the keys of `m` in an arbitrary order. */
  method MergeInto<V, C>(acc: map<string, V>, m: map<string, C>, zero: V, add: (V, C) -> V)
    returns (r: map<string, V>)
    ensures r == MergeWith(acc, m, zero, add)
  {
    r := acc;
    var todo := m.Keys;
    MergeLoopStart(acc, m, zero, add);
    while todo != {}
      invariant MergedExcept(r, acc, m, todo, zero, add)
      decreases |todo|
    {
      var k :| k in todo;
      MergeLoopStep(r, acc, m, todo, k, zero, add);
      r := r[k := add(At(r, k, zero), m[k])];
      todo := todo - {k};
    }
    MergeLoopEnd(r, acc, m, zero, add);
  }

  /** `combineReports(reports)`, as the loop over the reports that mutates one accumulator. */
  method CombineReports(reports: seq<Option<Report>>) returns (c: Combined)
    ensures c == CombineSpec(reports)
  {
    c := EMPTY_COMBINED;
    for i := 0 to |reports|
      invariant c == Accumulate(reports[..i])
    {
      assert reports[..i + 1][..i] == reports[..i];
      c := AddReportInto(c, reports[i]);
    }
    assert reports[..|reports|] == reports;
    if c.totalProcessed > 0 {
      c := c.(ratesComputed := true);
    }
  }

  /** One iteration of the accumulation loop: fold a report's counts into `c`. */
  method AddReportInto(c: Combined, r: Option<Report>) returns (d: Combined)
    ensures d == AddReport(c, r)
  {
    d := c;
    if r.Some? {
      var rep := r.value;
      var byClass := MergeInto(c.byClass, rep.byClass, ZERO_CLASS, AddClass);
      var reasons := MergeInto(c.declineReasons, rep.declineReasons, 0, AddCount);
      var byDate := MergeInto(c.byDate, rep.byDate, ZERO_DATE, AddDate);
      d := c.(totalApprovals := c.totalApprovals + Val(rep.totalApprovals),
              totalDeclines := c.totalDeclines + Val(rep.totalDeclines),
              totalProcessed := c.totalProcessed + Val(rep.totalProcessed),
              byClass := byClass, declineReasons := reasons, byDate := byDate);
    }
  }

  // ---------------------------------------------------------------------
  // What the combined counts mean: sums over the reports
  // ---------------------------------------------------------------------

  /** A report's contribution to one count; a falsy report contributes 0. */
  function Share(r: Option<Report>, f: Report -> int): int {
    if r.Some? then f(r.value) else 0
  }

  /** The reference sum, taken from the first report on. */
  function Summed(rs: seq<Option<Report>>, f: Report -> int): int {
    if rs == [] then 0 else Share(rs[0], f) + Summed(rs[1..], f)
  }

  lemma {:induction false} SummedSnoc(rs: seq<Option<Report>>, f: Report -> int)
    requires rs != []
    ensures Summed(rs, f) == Summed(rs[..|rs| - 1], f) + Share(rs[|rs| - 1], f)
  {
    if |rs| > 1 {
      SummedSnoc(rs[1..], f);
      assert rs[1..][..|rs[1..]| - 1] == rs[..|rs| - 1][1..];
    }
  }

  function ApprovalsOf(r: Report): int { Val(r.totalApprovals) }
  function DeclinesOf(r: Report): int { Val(r.totalDeclines) }
  function ProcessedOf(r: Report): int { Val(r.totalProcessed) }
  function ReasonOf(k: string): Report -> int {
    (r: Report) => if k in r.declineReasons then Val(r.declineReasons[k]) else 0
  }
  function ClassApprovalsOf(c: string): Report -> int {
    (r: Report) => if c in r.byClass then Val(r.byClass[c].approvals) else 0
  }
  function ClassDeclinesOf(c: string): Report -> int {
    (r: Report) => if c in r.byClass then Val(r.byClass[c].declines) else 0
  }
  function ClassReasonOf(c: string, k: string): Report -> int {
    (r: Report) => if c in r.byClass && k in r.byClass[c].declineReasons then Val(r.byClass[c].declineReasons[k]) else 0
  }
  function DateTotalOf(d: string): Report -> int {
    (r: Report) => if d in r.byDate then Val(r.byDate[d].total) else 0
  }
  function DateApprovalsOf(d: string): Report -> int {
    (r: Report) => if d in r.byDate then Val(r.byDate[d].approvals) else 0
  }
  function DateDeclinesOf(d: string): Report -> int {
    (r: Report) => if d in r.byDate then Val(r.byDate[d].declines) else 0
  }
  function DateClassApprovalsOf(d: string, c: string): Report -> int {
    (r: Report) => if d in r.byDate && c in r.byDate[d].byClass then Val(r.byDate[d].byClass[c].approvals) else 0
  }
  function DateClassDeclinesOf(d: string, c: string): Report -> int {
    (r: Report) => if d in r.byDate && c in r.byDate[d].byClass then Val(r.byDate[d].byClass[c].declines) else 0
  }
  function DateClassTotalOf(d: string, c: string): Report -> int {
    (r: Report) => if d in r.byDate && c in r.byDate[d].byClass then Val(r.byDate[d].byClass[c].total) else 0
  }

  /** Some non-falsy report has this key in the map `keys` picks out. */
  ghost predicate SomeReportHas(rs: seq<Option<Report>>, keys: Report -> set<string>, k: string) {
    exists i :: 0 <= i < |rs| && rs[i].Some? && k in keys(rs[i].value)
  }

  lemma SomeReportHasSnoc(rs: seq<Option<Report>>, keys: Report -> set<string>, k: string)
    requires rs != []
    ensures SomeReportHas(rs, keys, k) <==>
              SomeReportHas(rs[..|rs| - 1], keys, k) || (rs[|rs| - 1].Some? && k in keys(rs[|rs| - 1].value))
  {
    if SomeReportHas(rs, keys, k) {
      var i :| 0 <= i < |rs| && rs[i].Some? && k in keys(rs[i].value);
      if i < |rs| - 1 {
        assert rs[..|rs| - 1][i] == rs[i];
      }
    }
    if SomeReportHas(rs[..|rs| - 1], keys, k) {
      var i :| 0 <= i < |rs| - 1 && rs[..|rs| - 1][i].Some? && k in keys(rs[..|rs| - 1][i].value);
      assert rs[i] == rs[..|rs| - 1][i];
    }
  }

  function ReasonKeys(r: Report): set<string> { r.declineReasons.Keys }
  function ClassKeys(r: Report): set<string> { r.byClass.Keys }
  function DateKeys(r: Report): set<string> { r.byDate.Keys }
  function ClassReasonKeys(c: string): Report -> set<string> {
    (r: Report) => if c in r.byClass then r.byClass[c].declineReasons.Keys else {}
  }
  function DateClassKeys(d: string): Report -> set<string> {
    (r: Report) => if d in r.byDate then r.byDate[d].byClass.Keys else {}
  }

  /** The three summary counts are the sums of the reports' summary counts, missing fields read as 0. */
  lemma {:induction false} SummaryIsSum(rs: seq<Option<Report>>)
    ensures CombineSpec(rs).totalApprovals == Summed(rs, ApprovalsOf)
    ensures CombineSpec(rs).totalDeclines == Summed(rs, DeclinesOf)
    ensures CombineSpec(rs).totalProcessed == Summed(rs, ProcessedOf)
  {
    if rs != [] {
      SummaryIsSum(rs[..|rs| - 1]);
      SummedSnoc(rs, ApprovalsOf);
      SummedSnoc(rs, DeclinesOf);
      SummedSnoc(rs, ProcessedOf);
    }
  }

  /** The overall decline-reason histogram is the key-wise sum over the union of the reports' keys. */
  lemma {:induction false} ReasonsAreKeywiseSums(rs: seq<Option<Report>>, k: string)
    ensures k in CombineSpec(rs).declineReasons <==> SomeReportHas(rs, ReasonKeys, k)
    ensures At(CombineSpec(rs).declineReasons, k, 0) == Summed(rs, ReasonOf(k))
  {
    if rs != [] {
      ReasonsAreKeywiseSums(rs[..|rs| - 1], k);
      SummedSnoc(rs, ReasonOf(k));
      SomeReportHasSnoc(rs, ReasonKeys, k);
    }
  }

  /** A class appears in the combined report iff some report lists it. */
  lemma {:induction false} ClassKeysFromReports(rs: seq<Option<Report>>, c: string)
    ensures c in CombineSpec(rs).byClass <==> SomeReportHas(rs, ClassKeys, c)
  {
    if rs != [] {
      ClassKeysFromReports(rs[..|rs| - 1], c);
      SomeReportHasSnoc(rs, ClassKeys, c);
    }
  }

  /** One step of the fold, seen from a single class: the last report's counts for it, if any, are added. */
  lemma ByClassStep(rs: seq<Option<Report>>, c: string)
    requires rs != []
    ensures var prev := At(CombineSpec(rs[..|rs| - 1]).byClass, c, ZERO_CLASS);
            var last := rs[|rs| - 1];
            At(CombineSpec(rs).byClass, c, ZERO_CLASS)
            == if last.Some? && c in last.value.byClass then AddClass(prev, last.value.byClass[c]) else prev
  {
  }

  /** A class's approvals and declines are sums over the reports, and its total is recomputed as approvals + declines. */
  lemma {:induction false} ClassCountsAreSums(rs: seq<Option<Report>>, c: string)
    ensures var t := At(CombineSpec(rs).byClass, c, ZERO_CLASS);
            && t.approvals == Summed(rs, ClassApprovalsOf(c))
            && t.declines == Summed(rs, ClassDeclinesOf(c))
            && t.total == t.approvals + t.declines
  {
    if rs != [] {
      ByClassStep(rs, c);
      ClassCountsAreSums(rs[..|rs| - 1], c);
      SummedSnoc(rs, ClassApprovalsOf(c));
      SummedSnoc(rs, ClassDeclinesOf(c));
    }
  }

  /** A class's decline-reason histogram is the key-wise sum of the reports' histograms for that class. */
  lemma {:induction false} ClassReasonsAreSums(rs: seq<Option<Report>>, c: string, k: string)
    ensures At(At(CombineSpec(rs).byClass, c, ZERO_CLASS).declineReasons, k, 0) == Summed(rs, ClassReasonOf(c, k))
  {
    if rs != [] {
      ClassReasonStep(rs, c, k);
      ClassReasonsAreSums(rs[..|rs| - 1], c, k);
      SummedSnoc(rs, ClassReasonOf(c, k));
    }
  }

  /** One step of the fold, seen from one reason of one class: the last report's count for it is added. */
  lemma ClassReasonStep(rs: seq<Option<Report>>, c: string, k: string)
    requires rs != []
    ensures At(At(CombineSpec(rs).byClass, c, ZERO_CLASS).declineReasons, k, 0)
            == At(At(CombineSpec(rs[..|rs| - 1]).byClass, c, ZERO_CLASS).declineReasons, k, 0) + Share(rs[|rs| - 1], ClassReasonOf(c, k))
  {
    ByClassStep(rs, c);
  }

  /** A reason appears in a class's histogram iff some report lists that reason for that class, even with count 0. */
  lemma {:induction false} ClassReasonKeysFromReports(rs: seq<Option<Report>>, c: string, k: string)
    ensures k in At(CombineSpec(rs).byClass, c, ZERO_CLASS).declineReasons <==> SomeReportHas(rs, ClassReasonKeys(c), k)
  {
    if rs != [] {
      ByClassStep(rs, c);
      ClassReasonKeysFromReports(rs[..|rs| - 1], c, k);
      SomeReportHasSnoc(rs, ClassReasonKeys(c), k);
    }
  }

  /** Per date: the total adds up the reports' own `total` fields, not approvals + declines. */
  lemma {:induction false} DateTotalsAreSums(rs: seq<Option<Report>>, d: string)
    ensures d in CombineSpec(rs).byDate <==> SomeReportHas(rs, DateKeys, d)
    ensures At(CombineSpec(rs).byDate, d, ZERO_DATE).total == Summed(rs, DateTotalOf(d))
  {
    if rs != [] {
      DateTotalsAreSums(rs[..|rs| - 1], d);
      SummedSnoc(rs, DateTotalOf(d));
      SomeReportHasSnoc(rs, DateKeys, d);
    }
  }

  /** Per date: approvals and declines are sums over the reports. */
  lemma DateCountsAreSums(rs: seq<Option<Report>>, d: string)
    ensures var t := At(CombineSpec(rs).byDate, d, ZERO_DATE);
            && t.approvals == Summed(rs, DateApprovalsOf(d))
            && t.declines == Summed(rs, DateDeclinesOf(d))
  {
    DateApprovalsAreSums(rs, d);
    DateDeclinesAreSums(rs, d);
  }

  /** One step of the fold, seen from a single date: the last report's counts for it, if any, are added. */
  lemma ByDateStep(rs: seq<Option<Report>>, d: string)
    requires rs != []
    ensures var prev := At(CombineSpec(rs[..|rs| - 1]).byDate, d, ZERO_DATE);
            var last := rs[|rs| - 1];
            At(CombineSpec(rs).byDate, d, ZERO_DATE)
            == if last.Some? && d in last.value.byDate then AddDate(prev, last.value.byDate[d]) else prev
  {
  }

  /** Per date: the approvals add up the reports' approvals for that date. */
  lemma {:induction false} DateApprovalsAreSums(rs: seq<Option<Report>>, d: string)
    ensures At(CombineSpec(rs).byDate, d, ZERO_DATE).approvals == Summed(rs, DateApprovalsOf(d))
  {
    if rs != [] {
      ByDateStep(rs, d);
      DateApprovalsAreSums(rs[..|rs| - 1], d);
      SummedSnoc(rs, DateApprovalsOf(d));
    }
  }

  /** Per date: the declines add up the reports' declines for that date. */
  lemma {:induction false} DateDeclinesAreSums(rs: seq<Option<Report>>, d: string)
    ensures At(CombineSpec(rs).byDate, d, ZERO_DATE).declines == Summed(rs, DateDeclinesOf(d))
  {
    if rs != [] {
      ByDateStep(rs, d);
      DateDeclinesAreSums(rs[..|rs| - 1], d);
      SummedSnoc(rs, DateDeclinesOf(d));
    }
  }

  /** One step of the fold, seen from one class on one date: the last report's slot for it, if any, is added. */
  lemma DateClassStep(rs: seq<Option<Report>>, d: string, c: string)
    requires rs != []
    ensures var prev := At(At(CombineSpec(rs[..|rs| - 1]).byDate, d, ZERO_DATE).byClass, c, ZERO_SLOT);
            var last := rs[|rs| - 1];
            At(At(CombineSpec(rs).byDate, d, ZERO_DATE).byClass, c, ZERO_SLOT)
            == if last.Some? && d in last.value.byDate && c in last.value.byDate[d].byClass
               then AddSlot(prev, last.value.byDate[d].byClass[c]) else prev
  {
    ByDateStep(rs, d);
  }

  /** A class appears under a date iff some report lists that class for that date. */
  lemma {:induction false} DateClassKeysFromReports(rs: seq<Option<Report>>, d: string, c: string)
    ensures c in At(CombineSpec(rs).byDate, d, ZERO_DATE).byClass <==> SomeReportHas(rs, DateClassKeys(d), c)
  {
    if rs != [] {
      ByDateStep(rs, d);
      DateClassKeysFromReports(rs[..|rs| - 1], d, c);
      SomeReportHasSnoc(rs, DateClassKeys(d), c);
    }
  }

  /** Per date and class: approvals and declines are sums of the reports' own counts for that date and class. */
  lemma DateClassCountsAreSums(rs: seq<Option<Report>>, d: string, c: string)
    ensures var t := At(At(CombineSpec(rs).byDate, d, ZERO_DATE).byClass, c, ZERO_SLOT);
            && t.approvals == Summed(rs, DateClassApprovalsOf(d, c))
            && t.declines == Summed(rs, DateClassDeclinesOf(d, c))
  {
    DateClassApprovalsAreSums(rs, d, c);
    DateClassDeclinesAreSums(rs, d, c);
  }

  /** Per date and class: the approvals add up the reports' approvals for that date and class. */
  lemma {:induction false} DateClassApprovalsAreSums(rs: seq<Option<Report>>, d: string, c: string)
    ensures At(At(CombineSpec(rs).byDate, d, ZERO_DATE).byClass, c, ZERO_SLOT).approvals == Summed(rs, DateClassApprovalsOf(d, c))
  {
    if rs != [] {
      DateClassStep(rs, d, c);
      DateClassApprovalsAreSums(rs[..|rs| - 1], d, c);
      SummedSnoc(rs, DateClassApprovalsOf(d, c));
    }
  }

  /** Per date and class: the declines add up the reports' declines for that date and class. */
  lemma {:induction false} DateClassDeclinesAreSums(rs: seq<Option<Report>>, d: string, c: string)
    ensures At(At(CombineSpec(rs).byDate, d, ZERO_DATE).byClass, c, ZERO_SLOT).declines == Summed(rs, DateClassDeclinesOf(d, c))
  {
    if rs != [] {
      DateClassStep(rs, d, c);
      DateClassDeclinesAreSums(rs[..|rs| - 1], d, c);
      SummedSnoc(rs, DateClassDeclinesOf(d, c));
    }
  }

  /** Per date and class: the total adds up the reports' own `total` fields for that date and class. */
  lemma {:induction false} DateClassTotalsAreSums(rs: seq<Option<Report>>, d: string, c: string)
    ensures At(At(CombineSpec(rs).byDate, d, ZERO_DATE).byClass, c, ZERO_SLOT).total == Summed(rs, DateClassTotalOf(d, c))
  {
    if rs != [] {
      DateClassStep(rs, d, c);
      DateClassTotalsAreSums(rs[..|rs| - 1], d, c);
      SummedSnoc(rs, DateClassTotalOf(d, c));
    }
  }

  /** A date entry without a `total` field adds nothing to the combined date total, whatever its approvals and declines. */
  lemma DateTotalNotRecomputed(d: string)
    ensures var r := Report(None, None, None, map[], map[], map[d := DateCounts(Some(1), Some(1), None, map[])]);
            var t := CombineSpec([Some(r)]).byDate[d];
            t.approvals == 1 && t.declines == 1 && t.total == 0
  {
    var r := Report(None, None, None, map[], map[], map[d := DateCounts(Some(1), Some(1), None, map[])]);
    assert Accumulate([Some(r)]) == AddReport(Accumulate([]), Some(r));
    assert At(CombineSpec([Some(r)]).byDate, d, ZERO_DATE) == AddDate(ZERO_DATE, r.byDate[d]);
  }

  /** With no report at all, or only falsy ones, every count is 0, every map empty and no rate computed. */
  lemma {:induction false} AllNullGivesZeros(rs: seq<Option<Report>>)
    requires forall i :: 0 <= i < |rs| ==> rs[i].None?
    ensures CombineSpec(rs) == EMPTY_COMBINED
  {
    if rs != [] {
      AllNullGivesZeros(rs[..|rs| - 1]);
    }
  }

  // ---------------------------------------------------------------------
  // Available years
  // ---------------------------------------------------------------------

  predicate IsLogDir(name: string) {
    |name| >= 3 && name[..3] == "log"
  }

  /** `/log(\d{4})/` matches at `j`: "log" followed by four ASCII digits. */
  predicate YearAt(s: string, j: nat) {
    j + 7 <= |s| && s[j..j + 3] == "log" && forall t :: j + 3 <= t < j + 7 ==> IsDecDigit(s[t])
  }

  function YearValueAt(s: string, j: nat): nat
    requires YearAt(s, j)
  {
    DigitsValue(s[j + 3..j + 7], 10)
  }

  /** Where `/log(\d{4})/` first matches at or after `i`. */
  function FindYear(s: string, i: nat): (j: Option<nat>)
    requires i <= |s|
    ensures j.Some? ==> && i <= j.value && YearAt(s, j.value)
                        && forall j' :: i <= j' < j.value ==> !YearAt(s, j')
    ensures j.None? <==> forall j' :: i <= j' <= |s| ==> !YearAt(s, j')
    decreases |s| - i
  {
    if i + 7 > |s| then None
    else if YearAt(s, i) then Some(i)
    else FindYear(s, i + 1)
  }

  /** `dir.match(/log(\d{4})/)` and `parseInt(match[1])`: the four digits of the leftmost match, as a number. */
  function YearIn(name: string): (y: Option<nat>)
    ensures y.None? <==> forall j :: 0 <= j <= |name| ==> !YearAt(name, j)
    ensures y.Some? ==> exists j :: && 0 <= j <= |name| && YearAt(name, j)
                                     && (forall j' :: 0 <= j' < j ==> !YearAt(name, j'))
                                     && y.value == YearValueAt(name, j)
  {
    match FindYear(name, 0)
    case Some(j) => Some(YearValueAt(name, j))
    case None => None
  }

  /** The years in first-seen order, each once (the loop of `getAvailableYears`). */
  function YearsFound(dirs: seq<string>): (ys: seq<nat>)
    ensures forall i, j :: 0 <= i < j < |ys| ==> ys[i] != ys[j]
    ensures forall y :: y in ys <==> exists d :: d in dirs && IsLogDir(d) && YearIn(d) == Some(y)
  {
    if dirs == [] then []
    else
      var prev := YearsFound(dirs[..|dirs| - 1]);
      var d := dirs[|dirs| - 1];
      assert forall e :: e in dirs <==> e in dirs[..|dirs| - 1] || e == d;
      if IsLogDir(d) && YearIn(d).Some? && YearIn(d).value !in prev then prev + [YearIn(d).value] else prev
  }

  predicate StrictlyAscending(s: seq<nat>) {
    forall i, j :: 0 <= i < j < |s| ==> s[i] < s[j]
  }

  function Insert(x: nat, s: seq<nat>): (r: seq<nat>)
    requires StrictlyAscending(s) && x !in s
    ensures StrictlyAscending(r) && |r| == |s| + 1
    ensures forall y :: y in r <==> y == x || y in s
  {
    if s == [] then [x]
    else if x < s[0] then [x] + s
    else
      assert StrictlyAscending(s[1..]);
      var t := Insert(x, s[1..]);
      assert forall y :: y in t ==> s[0] < y;
      assert forall i :: 0 <= i < |t| ==> t[i] in t;
      [s[0]] + t
  }

  /** `years.sort((a, b) => a - b)` on a list without duplicates. */
  function SortDistinct(s: seq<nat>): (r: seq<nat>)
    requires forall i, j :: 0 <= i < j < |s| ==> s[i] != s[j]
    ensures StrictlyAscending(r) && |r| == |s|
    ensures forall y :: y in r <==> y in s
  {
    if s == [] then []
    else
      assert forall y :: y in s <==> y in s[..|s| - 1] || y == s[|s| - 1];
      Insert(s[|s| - 1], SortDistinct(s[..|s| - 1]))
  }

  /**
   * What `getAvailableYears` returns for the given directory names: strictly
   * ascending, and a year is listed iff it is the leftmost "log" followed by
   * four digits in some name starting with "log" (`log2024_log2025` gives 2024 only).
   */
  function AvailableYears(dirs: seq<string>): (years: seq<nat>)
    ensures StrictlyAscending(years)
    ensures forall y :: y in years <==> exists d :: d in dirs && IsLogDir(d) && YearIn(d) == Some(y)
  {
    SortDistinct(YearsFound(dirs))
  }

  /** `getAvailableYears` over the directory names of the server's folder. */
  method GetAvailableYears(dirs: seq<string>) returns (years: seq<nat>)
    ensures years == AvailableYears(dirs)
  {
    var found: seq<nat> := [];
    for i := 0 to |dirs|
      invariant found == YearsFound(dirs[..i])
    {
      assert dirs[..i + 1][..i] == dirs[..i];
      var d := dirs[i];
      if IsLogDir(d) {
        var m := YearIn(d);
        if m.Some? && m.value !in found {
          found := found + [m.value];
        }
      }
    }
    assert dirs[..|dirs|] == dirs;
    years := SortDistinct(found);
  }

  /** A year as a template literal prints it: decimal, no leading zeros. */
  function DecimalString(n: nat): (s: string)
    ensures |s| >= 1 && forall i :: 0 <= i < |s| ==> IsDecDigit(s[i])
  {
    if n < 10 then [('0' as int + n) as char]
    else DecimalString(n / 10) + [('0' as int + n % 10) as char]
  }

  /** A non-zero year is printed without a leading zero. */
  lemma {:induction false} DecimalStringNoLeadingZero(n: nat)
    ensures n > 0 ==> DecimalString(n)[0] != '0'
  {
    if n >= 10 {
      DecimalStringNoLeadingZero(n / 10);
    }
  }

  /** Printing a year and reading it back gives the year. */
  lemma {:induction false} DecimalRoundTrip(n: nat)
    ensures DigitsValue(DecimalString(n), 10) == n
  {
    var s := DecimalString(n);
    if n >= 10 {
      DecimalRoundTrip(n / 10);
      assert s[..|s| - 1] == DecimalString(n / 10);
    } else {
      assert s[..|s| - 1] == [];
    }
  }

  // ---------------------------------------------------------------------
  // API routing
  // ---------------------------------------------------------------------

  /** `url.split('?')[0]`: everything before the first '?'. */
  function PathOf(url: string): (p: string)
    ensures |p| <= |url| && p == url[..|p|] && '?' !in p
    ensures |p| < |url| ==> url[|p|] == '?'
  {
    if url == [] || url[0] == '?' then [] else [url[0]] + PathOf(url[1..])
  }

  /** `/^\/api\/stats\/(\d{4})$/` */
  predicate IsYearPath(p: string) {
    |p| == 15 && p[..11] == "/api/stats/" && forall i :: 11 <= i < 15 ==> IsDecDigit(p[i])
  }

  datatype ApiRoute =
    | Preflight              // OPTIONS on any path
    | ListYears              // GET /api/stats
    | AllYears               // GET /api/stats/all
    | OneYear(year: string)  // GET /api/stats/dddd
    | UnknownEndpoint

  /** The first matching route in the order the handler tests them; only GET and OPTIONS reach a known route. */
  function ClassifyApi(verb: string, url: string): (r: ApiRoute)
    ensures r == Preflight <==> verb == "OPTIONS"
    ensures r == ListYears ==> verb == "GET" && PathOf(url) == "/api/stats"
    ensures r == AllYears ==> verb == "GET" && PathOf(url) == "/api/stats/all"
    ensures r.OneYear? ==> verb == "GET" && IsYearPath(PathOf(url)) && PathOf(url) == "/api/stats/" + r.year
    ensures verb == "GET" && IsYearPath(PathOf(url)) ==> r.OneYear?
    ensures verb != "GET" && verb != "OPTIONS" ==> r == UnknownEndpoint
  {
    var p := PathOf(url);
    if verb == "OPTIONS" then Preflight
    else if p == "/api/stats" && verb == "GET" then ListYears
    else if p == "/api/stats/all" && verb == "GET" then AllYears
    else if IsYearPath(p) && verb == "GET" then OneYear(p[11..])
    else UnknownEndpoint
  }

  datatype Body =
    | NoBody
    | YearList(availableYears: seq<nat>)
    | CombinedStats(stats: Combined)
    | YearReport(report: Report)
    | ErrorMessage(error: string)

  datatype Response = Response(status: nat, body: Body)

  /**
   * The report.json files, keyed by directory name. A key is absent when the
   * file is missing, unreadable, not JSON or JSON `null`; `None` is another
   * falsy JSON value.
   */
  type ReportFiles = map<string, Option<Report>>

  /** `log${year}`: a log directory named by the year's digits. */
  function ReportFileFor(year: nat): (name: string)
    ensures IsLogDir(name) && |name| >= 4
    ensures forall i :: 3 <= i < |name| ==> IsDecDigit(name[i])
  {
    var name := "log" + DecimalString(year);
    assert name[..3] == "log";
    name
  }

  /** The digits after "log" read back as the year. */
  lemma ReportFileNamesYear(year: nat)
    ensures DigitsValue(ReportFileFor(year)[3..], 10) == year
  {
    var name := ReportFileFor(year);
    assert name[3..] == DecimalString(year);
    DecimalRoundTrip(year);
  }

  /** `years.map(readJSONFile).filter(report => report !== null)` */
  function ReportsFor(years: seq<nat>, files: ReportFiles): (rs: seq<Option<Report>>)
    ensures rs == [] <==> forall i :: 0 <= i < |years| ==> ReportFileFor(years[i]) !in files
    ensures |rs| <= |years|
    ensures |years| == 1 && ReportFileFor(years[0]) in files ==> rs == [files[ReportFileFor(years[0])]]
  {
    if years == [] then []
    else
      (if ReportFileFor(years[0]) in files then [files[ReportFileFor(years[0])]] else [])
      + ReportsFor(years[1..], files)
  }

  /** `readJSONFile` of one year's report, dropped when absent. */
  function ReadYear(year: nat, files: ReportFiles): seq<Option<Report>> {
    var key := ReportFileFor(year);
    if key in files then [files[key]] else []
  }

  /** `handleAPIRequest`, with `dirs` the server folder's directory names and `files` its report files. */
  function HandleApiRequest(verb: string, url: string, dirs: seq<string>, files: ReportFiles): (resp: Response)
    ensures resp.status == 200 || resp.status == 404
    ensures resp.status == 404 <==> resp.body.ErrorMessage?
    ensures resp.body.NoBody? <==> verb == "OPTIONS"
  {
    match ClassifyApi(verb, url)
    case Preflight => Response(200, NoBody)
    case ListYears => Response(200, YearList(AvailableYears(dirs)))
    case AllYears =>
      var rs := ReportsFor(AvailableYears(dirs), files);
      if rs == [] then Response(404, ErrorMessage("No reports found"))
      else Response(200, CombinedStats(CombineSpec(rs)))
    case OneYear(year) =>
      var key := "log" + year;
      if key in files && files[key].Some? then Response(200, YearReport(files[key].value))
      else Response(404, ErrorMessage("Report not found for year " + year))
    case UnknownEndpoint => Response(404, ErrorMessage("API endpoint not found"))
  }

  /** Preflight requests succeed on every path. */
  lemma OptionsAlwaysSucceeds(url: string, dirs: seq<string>, files: ReportFiles)
    ensures HandleApiRequest("OPTIONS", url, dirs, files) == Response(200, NoBody)
  {
  }

  lemma {:induction false} PathIgnoresQuery(p: string, q: string)
    requires '?' !in p
    ensures PathOf(p + "?" + q) == p
  {
    if p != [] {
      assert (p + "?" + q)[1..] == p[1..] + "?" + q;
      PathIgnoresQuery(p[1..], q);
    } else {
      assert (p + "?" + q)[0] == '?';
    }
  }

  /** The query string never changes the response. */
  lemma QueryIgnored(verb: string, p: string, q: string, dirs: seq<string>, files: ReportFiles)
    requires '?' !in p
    ensures HandleApiRequest(verb, p + "?" + q, dirs, files) == HandleApiRequest(verb, p, dirs, files)
  {
    PathIgnoresQuery(p, q);
    PathOfNoQuery(p);
    SameRouteSameResponse(verb, p + "?" + q, p, dirs, files);
  }

  /** The response depends on the URL only through its route. */
  lemma SameRouteSameResponse(verb: string, u: string, v: string, dirs: seq<string>, files: ReportFiles)
    requires PathOf(u) == PathOf(v)
    ensures HandleApiRequest(verb, u, dirs, files) == HandleApiRequest(verb, v, dirs, files)
  {
    assert ClassifyApi(verb, u) == ClassifyApi(verb, v);
  }

  lemma {:induction false} PathOfNoQuery(p: string)
    requires '?' !in p
    ensures PathOf(p) == p
  {
    if p != [] {
      PathOfNoQuery(p[1..]);
    }
  }

  /** GET on the listing path returns the available years. */
  lemma ListingReturnsYears(dirs: seq<string>, files: ReportFiles)
    ensures HandleApiRequest("GET", "/api/stats", dirs, files) == Response(200, YearList(AvailableYears(dirs)))
  {
    PathOfNoQuery("/api/stats");
  }

  lemma ClassifyAll()
    ensures ClassifyApi("GET", "/api/stats/all") == AllYears
  {
    var p := "/api/stats/all";
    assert |p| == 14 && p != "/api/stats";
    assert '?' !in p by {
      forall i | 0 <= i < |p|
        ensures p[i] != '?'
      {
      }
    }
    PathOfNoQuery(p);
  }

  /** Reading the report files of two lists of years is reading each list in turn. */
  lemma {:induction false} ReportsForAppend(a: seq<nat>, b: seq<nat>, files: ReportFiles)
    ensures ReportsFor(a + b, files) == ReportsFor(a, files) + ReportsFor(b, files)
  {
    if a == [] {
      assert a + b == b;
    } else {
      var key := ReportFileFor(a[0]);
      var head := if key in files then [files[key]] else [];
      assert (a + b)[0] == a[0] && (a + b)[1..] == a[1..] + b;
      assert ReportsFor(a + b, files) == head + ReportsFor(a[1..] + b, files);
      assert ReportsFor(a, files) == head + ReportsFor(a[1..], files);
      ReportsForAppend(a[1..], b, files);
      assert head + (ReportsFor(a[1..], files) + ReportsFor(b, files))
             == (head + ReportsFor(a[1..], files)) + ReportsFor(b, files);
    }
  }

  /**
   * The combined endpoint answers 404 'No reports found' exactly when no
   * available year has a report file; otherwise it answers 200 with the
   * combination of the reports read.
   */
  lemma AllYearsWithoutReports(dirs: seq<string>, files: ReportFiles)
    ensures var years := AvailableYears(dirs);
            (HandleApiRequest("GET", "/api/stats/all", dirs, files) == Response(404, ErrorMessage("No reports found")))
            <==> forall i :: 0 <= i < |years| ==> ReportFileFor(years[i]) !in files
    ensures var rs := ReportsFor(AvailableYears(dirs), files);
            rs != [] ==> HandleApiRequest("GET", "/api/stats/all", dirs, files) == Response(200, CombinedStats(CombineSpec(rs)))
  {
    ClassifyAll();
    var rs := ReportsFor(AvailableYears(dirs), files);
    assert HandleApiRequest("GET", "/api/stats/all", dirs, files)
           == if rs == [] then Response(404, ErrorMessage("No reports found")) else Response(200, CombinedStats(CombineSpec(rs)));
  }

  /** A four-digit year path returns that directory's report, or 404 naming the year. */
  lemma OneYearResponse(y: string, dirs: seq<string>, files: ReportFiles)
    requires |y| == 4 && forall i :: 0 <= i < 4 ==> IsDecDigit(y[i])
    ensures var resp := HandleApiRequest("GET", "/api/stats/" + y, dirs, files);
            var key := "log" + y;
            if key in files && files[key].Some? then resp == Response(200, YearReport(files[key].value))
            else resp == Response(404, ErrorMessage("Report not found for year " + y))
  {
    var p := "/api/stats/" + y;
    PathOfNoQuery(p);
    assert p[..11] == "/api/stats/" && p[11..] == y;
    assert IsYearPath(p);
    assert p != "/api/stats" && p != "/api/stats/all";
  }

  /** Any method other than GET and OPTIONS is an unknown endpoint, whatever the path. */
  lemma OtherMethodsUnknown(verb: string, url: string, dirs: seq<string>, files: ReportFiles)
    requires verb != "GET" && verb != "OPTIONS"
    ensures HandleApiRequest(verb, url, dirs, files) == Response(404, ErrorMessage("API endpoint not found"))
  {
  }

  /** A stats path whose last segment is not four digits, such as `abcd`, is an unknown endpoint. */
  lemma NonDigitYearUnknown(seg: string, dirs: seq<string>, files: ReportFiles)
    requires '?' !in seg && seg != "all"
    requires exists i :: 0 <= i < |seg| && !IsDecDigit(seg[i])
    ensures HandleApiRequest("GET", "/api/stats/" + seg, dirs, files) == Response(404, ErrorMessage("API endpoint not found"))
  {
    var prefix := "/api/stats/";
    var p := prefix + seg;
    assert '?' !in prefix;
    NoQueryAppend(prefix, seg);
    assert p[11..] == seg;
    var all := "/api/stats/all";
    assert all[11..] == "all";
    assert p != all;
    var i :| 0 <= i < |seg| && !IsDecDigit(seg[i]);
    assert p[11 + i] == seg[i];
    assert !IsYearPath(p);
    UnknownPath(p, dirs, files);
  }

  lemma NoQueryAppend(a: string, b: string)
    requires '?' !in a && '?' !in b
    ensures '?' !in a + b
  {
    var s := a + b;
    forall i | 0 <= i < |s|
      ensures s[i] != '?'
    {
      if i < |a| {
        assert s[i] == a[i];
      } else {
        assert s[i] == b[i - |a|];
      }
    }
  }

  /** A query-free path that none of the GET routes match is an unknown endpoint. */
  lemma UnknownPath(p: string, dirs: seq<string>, files: ReportFiles)
    requires '?' !in p && p != "/api/stats" && p != "/api/stats/all" && !IsYearPath(p)
    ensures HandleApiRequest("GET", p, dirs, files) == Response(404, ErrorMessage("API endpoint not found"))
  {
    PathOfNoQuery(p);
  }

  // ---------------------------------------------------------------------
  // Static files
  // ---------------------------------------------------------------------

  predicate HasDotDot(s: string) {
    exists i :: 0 <= i < |s| - 1 && s[i] == '.' && s[i + 1] == '.'
  }

  function DropTrailingSlashes(p: string): (r: string)
    ensures |r| <= |p| && r == p[..|r|]
    ensures r == [] || r[|r| - 1] != '/'
  {
    if p != [] && p[|p| - 1] == '/' then DropTrailingSlashes(p[..|p| - 1]) else p
  }

  /** The last path segment, trailing slashes ignored. */
  function BaseName(p: string): (b: string)
    ensures '/' !in b
  {
    var q := DropTrailingSlashes(p);
    AfterLastSlash(q)
  }

  function AfterLastSlash(q: string): (b: string)
    ensures '/' !in b && |b| <= |q| && b == q[|q| - |b|..]
  {
    if q == [] then []
    else if q[|q| - 1] == '/' then []
    else AfterLastSlash(q[..|q| - 1]) + [q[|q| - 1]]
  }

  /**
   * `path.extname(p)` is non-empty: the last segment has a dot after its
   * first character and is not `..`.
   */
  function HasExtension(p: string): (e: bool)
    ensures e ==> '.' in BaseName(p)
    ensures BaseName(p) == ".." ==> !e
    ensures var b := BaseName(p); b != [] && b[0] == '.' && '.' !in b[1..] ==> !e
  {
    var b := BaseName(p);
    b != ".." && exists i :: 0 < i < |b| && b[i] == '.'
  }

  /** `path.join(p, 'index.html')`, without the normalisation of `.` and doubled separators. */
  function JoinIndex(p: string): (r: string)
    ensures |p| + 10 <= |r| <= |p| + 11
    ensures r[..|p|] == p && r[|r| - 10..] == "index.html"
    ensures p != [] && p[|p| - 1] != '/' ==> r[|p|] == '/'
    ensures !HasDotDot(p) ==> !HasDotDot(r)
  {
    var suffix := if p == [] || p[|p| - 1] == '/' then "index.html" else "/index.html";
    assert suffix[|suffix| - 10..] == "index.html";
    assert (p + suffix)[..|p|] == p && (p + suffix)[|p + suffix| - 10..] == suffix[|suffix| - 10..];
    IndexSuffixes();
    if !HasDotDot(p) then
      NoDotDotAppend(p, suffix);
      p + suffix
    else
      p + suffix
  }

  lemma IndexSuffixes()
    ensures !HasDotDot("index.html") && !HasDotDot("/index.html")
  {
    var s, t := "index.html", "/index.html";
    assert forall i :: 0 <= i < |s| - 1 && s[i] == '.' ==> s[i + 1] != '.';
    assert forall i :: 0 <= i < |t| - 1 && t[i] == '.' ==> t[i + 1] != '.';
  }

  datatype StaticResult = Forbidden | ServeFile(path: string)

  const DASHBOARD: string := "/report-dashboard.html"

  /**
   * The path rewriting of the static-file branch, relative to the server's
   * folder: a path with `..` is refused, and a served path never contains
   * `..`, so it cannot climb out of the folder.
   */
  function StaticFor(p: string): (r: StaticResult)
    ensures r.Forbidden? <==> p != "/" && HasDotDot(p)
    ensures r.ServeFile? ==> !HasDotDot(r.path)
  {
    var p1 := if p == "/" then DASHBOARD else p;
    DashboardNoDotDot();
    if HasDotDot(p1) then Forbidden
    else
      var rel := if p1 == [] then [] else p1[1..];
      NoDotDotInSlice(p1, if p1 == [] then 0 else 1);
      if HasExtension(rel) then ServeFile(rel) else ServeFile(JoinIndex(rel))
  }

  /** The static branch on a request URL, its query string removed. */
  function StaticPath(url: string): (r: StaticResult)
    ensures r.Forbidden? <==> PathOf(url) != "/" && HasDotDot(PathOf(url))
    ensures r.ServeFile? ==> !HasDotDot(r.path)
  {
    StaticFor(PathOf(url))
  }

  datatype Handler = Api(route: ApiRoute) | Static(result: StaticResult)

  /** The server callback: anything starting with `/api/` (query included) is an API request. */
  function Dispatch(verb: string, url: string): (h: Handler)
    ensures h.Api? <==> |url| >= 5 && url[..5] == "/api/"
  {
    if |url| >= 5 && url[..5] == "/api/" then Api(ClassifyApi(verb, url)) else Static(StaticPath(url))
  }

  lemma {:induction false} AfterLastSlashNoSlash(q: string)
    requires '/' !in q
    ensures AfterLastSlash(q) == q
  {
    if q != [] {
      AfterLastSlashNoSlash(q[..|q| - 1]);
    }
  }

  /** A single segment is its own base name. */
  lemma SegmentIsBaseName(name: string)
    requires '/' !in name
    ensures BaseName(name) == name
  {
    assert name == [] || name[|name| - 1] in name;
    AfterLastSlashNoSlash(name);
  }

  lemma SegmentWithDot(name: string, i: nat)
    requires '/' !in name && 0 < i < |name| && name[i] == '.' && name != ".."
    ensures HasExtension(name)
  {
    SegmentIsBaseName(name);
  }

  lemma SegmentWithoutDot(name: string)
    requires '/' !in name && '.' !in name
    ensures !HasExtension(name)
  {
    SegmentIsBaseName(name);
    forall i | 0 < i < |name|
      ensures name[i] != '.'
    {
      assert name[i] in name;
    }
  }

  lemma NoDotNoDotDot(s: string)
    requires '.' !in s
    ensures !HasDotDot(s)
  {
    forall i | 0 <= i < |s| - 1
      ensures s[i] != '.'
    {
      assert s[i] in s;
    }
  }

  /** A path of one segment with an extension is served as it stands, without its leading slash. */
  lemma ServesSegment(name: string, i: nat)
    requires '/' !in name && 0 < i < |name| && name[i] == '.' && name != ".." && !HasDotDot("/" + name)
    ensures StaticFor("/" + name) == ServeFile(name)
  {
    assert ("/" + name)[1..] == name;
    assert "/" + name != "/";
    SegmentWithDot(name, i);
  }

  lemma DashboardServed()
    ensures StaticFor("/") == ServeFile("report-dashboard.html")
  {
    var name := "report-dashboard.html";
    DashboardNoDotDot();
    DashboardName();
    ServesSegment(name, 16);
  }

  lemma DashboardName()
    ensures var name := "report-dashboard.html";
            DASHBOARD == "/" + name && '/' !in name && name[16] == '.' && name != ".."
  {
    var name := "report-dashboard.html";
    assert DASHBOARD == "/" + name;
    assert forall i :: 0 <= i < |name| ==> name[i] != '/';
  }

  lemma DashboardNoDotDot()
    ensures !HasDotDot(DASHBOARD)
  {
    var stem, ext := "/report-dashboard", "html";
    assert '.' !in stem && '.' !in ext;
    NoDotNoDotDot(stem);
    NoDotNoDotDot(ext);
    NoDotDotAppend(".", ext);
    NoDotDotAppend(stem, "." + ext);
    assert DASHBOARD == stem + ("." + ext);
  }

  /** The site root serves the dashboard, whatever the query. */
  lemma RootServesDashboard(q: string)
    ensures StaticPath("/") == ServeFile("report-dashboard.html")
    ensures StaticPath("/?" + q) == ServeFile("report-dashboard.html")
  {
    PathOfNoQuery("/");
    assert "/?" + q == "/" + "?" + q;
    PathIgnoresQuery("/", q);
    DashboardServed();
  }

  /** A path whose last segment has no extension gets `index.html` appended. */
  lemma ExtensionlessGetsIndex(url: string)
    requires var p := PathOf(url); p != "/" && p != [] && !HasDotDot(p) && !HasExtension(p[1..])
    ensures StaticPath(url) == ServeFile(JoinIndex(PathOf(url)[1..]))
  {
  }

  lemma NoDotDotInSlice(s: string, from: nat)
    requires from <= |s| && !HasDotDot(s)
    ensures !HasDotDot(s[from..])
  {
    var t := s[from..];
    forall i | 0 <= i < |t| - 1
      ensures !(t[i] == '.' && t[i + 1] == '.')
    {
      assert t[i] == s[from + i] && t[i + 1] == s[from + i + 1];
    }
  }

  lemma NoDotDotAppend(a: string, b: string)
    requires !HasDotDot(a) && !HasDotDot(b)
    requires a == [] || b == [] || a[|a| - 1] != '.' || b[0] != '.'
    ensures !HasDotDot(a + b)
  {
    var s := a + b;
    forall i | 0 <= i < |s| - 1
      ensures !(s[i] == '.' && s[i + 1] == '.')
    {
      if i + 1 < |a| {
        assert s[i] == a[i] && s[i + 1] == a[i + 1];
      } else if i >= |a| {
        assert s[i] == b[i - |a|] && s[i + 1] == b[i - |a| + 1];
      } else {
        assert s[i] == a[|a| - 1] && s[i + 1] == b[0];
      }
    }
  }

  /** `/api` without the trailing slash is not an API request: it is served as a static folder. */
  lemma ApiWithoutSlashIsStatic()
    ensures Dispatch("GET", "/api") == Static(ServeFile("api/index.html"))
  {
    var name := "api";
    ApiNameFacts();
    assert "/api" == "/" + name;
    PathOfNoQuery("/" + name);
    ServesFolder(name);
  }

  lemma ApiNameFacts()
    ensures '/' !in "api" && '.' !in "api" && '?' !in "api"
    ensures JoinIndex("api") == "api/index.html"
  {
  }

  /** A one-segment path without a dot is served as that folder's index page. */
  lemma ServesFolder(name: string)
    requires name != [] && '/' !in name && '.' !in name && '?' !in name
    ensures '?' !in "/" + name
    ensures StaticFor("/" + name) == ServeFile(JoinIndex(name))
  {
    var p := "/" + name;
    assert p[1..] == name;
    assert forall i :: 1 <= i < |p| ==> p[i] == name[i - 1];
    assert '?' !in p && '.' !in p && p != "/";
    NoDotNoDotDot(p);
    SegmentWithoutDot(name);
  }
}
