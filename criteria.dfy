/** Step 1 of the report wizard, the criteria panel: a synthetic catalogue of
    twenty machines, a case-insensitive name filter over it, the check boxes
    that add ids to and remove ids from the selection, and the form's
    validation (both dates present, at least one machine, a report type). */
module Criteria {
  import opened Wrappers
  import opened Seqs
  import opened Text

  datatype Machine = Machine(id: string, name: string)

  const MachineCount: nat := 20

  /** `String(n).padStart(3, '0')`. */
  function Pad3(n: nat): (r: string)
    ensures n < 1000 ==> |r| == 3
  {
    DecimalLength(n);
    PadStart(Decimal(n), 3, '0')
  }

  /** The padded number is made of digits only. */
  lemma Pad3Digits(n: nat)
    ensures forall c :: c in Pad3(n) ==> '0' <= c <= '9'
  {
    var digits, padded := Decimal(n), Pad3(n);
    var pad := |padded| - |digits|;
    forall c | c in padded ensures '0' <= c <= '9' {
      var k :| 0 <= k < |padded| && padded[k] == c;
      if k >= pad {
        assert padded[pad..][k - pad] == c;
      }
    }
  }

  /** `allMachineIds`: machine i (counting from 0) is numbered i + 1. */
  function AllMachines(): (r: seq<Machine>)
    ensures |r| == MachineCount
  {
    seq(MachineCount, i requires 0 <= i < MachineCount =>
      Machine("MACHINE-" + Pad3(i + 1), "Machine " + Pad3(i + 1)))
  }

  /** Every id is "MACHINE-" followed by three digits that read back as the
      machine's number, and the name carries the same three digits. */
  lemma MachineNumbering(i: nat)
    requires i < MachineCount
    ensures |AllMachines()[i].id| == 11 && AllMachines()[i].id[..8] == "MACHINE-"
    ensures forall c :: c in AllMachines()[i].id[8..] ==> '0' <= c <= '9'
    ensures Value(AllMachines()[i].id[8..]) == i + 1
    ensures AllMachines()[i].name == "Machine " + AllMachines()[i].id[8..]
  {
    var m := AllMachines()[i];
    assert m.id[8..] == Pad3(i + 1);
    PaddedDecimalRoundTrip(i + 1, 3);
    Pad3Digits(i + 1);
  }

  /** No two machines share an id. */
  lemma CatalogueIdsDistinct()
    ensures forall i, j :: 0 <= i < j < MachineCount ==> AllMachines()[i].id != AllMachines()[j].id
  {
    forall i, j | 0 <= i < j < MachineCount ensures AllMachines()[i].id != AllMachines()[j].id {
      MachineNumbering(i);
      MachineNumbering(j);
    }
  }

  // ---------------------------------------------------------------------------
  // The machine search box

  /** A machine is listed when its lower-cased name contains the lower-cased
      search text. */
  predicate NameMatches(m: Machine, search: string) {
    Contains(Lower(m.name), Lower(search))
  }

  /** `filteredMachineIds`. */
  function FilteredMachines(search: string): (r: seq<Machine>)
    ensures forall i :: 0 <= i < |r| ==> r[i] in AllMachines() && NameMatches(r[i], search)
    ensures forall i :: 0 <= i < MachineCount && NameMatches(AllMachines()[i], search) ==> AllMachines()[i] in r
  {
    Filter(AllMachines(), m => NameMatches(m, search))
  }

  /** The listed machines keep the catalogue's order, and an empty search
      lists all twenty. */
  lemma FilteredMachinesProperties(search: string)
    ensures Subsequence(FilteredMachines(search), AllMachines())
    ensures search == "" ==> FilteredMachines(search) == AllMachines()
  {
    FilterIsSubsequence(AllMachines(), m => NameMatches(m, search));
    if search == "" {
      forall i | 0 <= i < MachineCount ensures NameMatches(AllMachines()[i], search) {
        ContainsEmpty(Lower(AllMachines()[i].name));
      }
      FilterAll(AllMachines(), m => NameMatches(m, search));
    }
  }

  // ---------------------------------------------------------------------------
  // The selection list

  function Differs(id: string): string -> bool {
    v => v != id
  }

  /** Unchecking: `value.filter(v => v !== id)`. */
  function RemoveId(ids: seq<string>, id: string): (r: seq<string>)
    ensures id !in r
    ensures forall i :: 0 <= i < |ids| && ids[i] != id ==> ids[i] in r
    ensures forall i :: 0 <= i < |r| ==> r[i] in ids
  {
    Filter(ids, Differs(id))
  }

  /** Unchecking keeps the other ids in their order and drops every copy of
      the id, however many there were. */
  lemma {:induction false} RemoveIdProperties(ids: seq<string>, id: string)
    ensures Subsequence(RemoveId(ids, id), ids)
    ensures |RemoveId(ids, id)| == |ids| - multiset(ids)[id]
  {
    FilterIsSubsequence(ids, Differs(id));
    if ids != [] {
      RemoveIdProperties(ids[1..], id);
      assert ids == [ids[0]] + ids[1..];
    }
  }

  /** Unchecking an id that is not selected changes nothing. */
  lemma RemoveAbsentId(ids: seq<string>, id: string)
    requires id !in ids
    ensures RemoveId(ids, id) == ids
  {
    FilterAll(ids, Differs(id));
  }

  /** Checking an unselected machine and then unchecking it restores the
      selection. */
  lemma CheckThenUncheck(ids: seq<string>, id: string)
    requires id !in ids
    ensures RemoveId(ids + [id], id) == ids
  {
    FilterAppend(ids, [id], Differs(id));
    RemoveAbsentId(ids, id);
    assert Filter([id], Differs(id)) == [];
  }

  // ---------------------------------------------------------------------------
  // `reportCriteriaSchema`

  /** A date is an opaque instant; only its presence matters to the schema. */
  datatype DateRange = DateRange(from: Option<int>, to: Option<int>)

  datatype CriteriaValues = CriteriaValues(dateRange: DateRange, machineIds: seq<string>, reportType: string)

  datatype CriteriaError = StartDateRequired | EndDateRequired | NoMachineSelected | ReportTypeRequired

  function Message(e: CriteriaError): string {
    match e
    case StartDateRequired => "Start date is required."
    case EndDateRequired => "End date is required."
    case NoMachineSelected => "At least one machine ID must be selected."
    case ReportTypeRequired => "Report type is required."
  }

  /** The schema's findings, in field order; no finding means valid. */
  function ValidateCriteria(v: CriteriaValues): (errors: seq<CriteriaError>)
    ensures errors == [] <==>
      v.dateRange.from.Some? && v.dateRange.to.Some? && |v.machineIds| >= 1 && |v.reportType| >= 1
    ensures StartDateRequired in errors <==> v.dateRange.from.None?
    ensures EndDateRequired in errors <==> v.dateRange.to.None?
    ensures NoMachineSelected in errors <==> v.machineIds == []
    ensures ReportTypeRequired in errors <==> v.reportType == ""
    ensures NoDuplicates(errors)
  {
    var start := if v.dateRange.from.None? then [StartDateRequired] else [];
    var dates := if v.dateRange.to.None? then start + [EndDateRequired] else start;
    var machines := if |v.machineIds| < 1 then dates + [NoMachineSelected] else dates;
    if |v.reportType| < 1 then machines + [ReportTypeRequired] else machines
  }

  /** The schema does not relate the two dates: a range that ends before it
      starts is accepted. */
  lemma ReversedRangeAccepted()
    ensures ValidateCriteria(CriteriaValues(DateRange(Some(10), Some(3)), ["MACHINE-001"], "production_summary")) == []
  {
  }

  // ---------------------------------------------------------------------------
  // The panel's state

  class CriteriaPanel {
    var machineSearch: string
    var dateRange: DateRange
    var machineIds: seq<string>
    var reportType: string

    /** The form's defaults; `today` stands for `new Date()`. */
    constructor (today: int)
      ensures machineSearch == "" && machineIds == [] && reportType == ""
      ensures dateRange == DateRange(Some(today), Some(today))
    {
      machineSearch := "";
      dateRange := DateRange(Some(today), Some(today));
      machineIds := [];
      reportType := "";
    }

    function Values(): CriteriaValues
      reads this
    {
      CriteriaValues(dateRange, machineIds, reportType)
    }

    /** The machines the list currently shows. */
    function VisibleMachines(): seq<Machine>
      reads this
    {
      FilteredMachines(machineSearch)
    }

    /** Whether a machine's check box shows as checked. */
    function IsChecked(id: string): bool
      reads this
    {
      id in machineIds
    }

    /** Typing in the search box: the selection is untouched, so machines
        that drop out of the list stay selected. */
    method SetMachineSearch(search: string)
      modifies this
      ensures machineSearch == search
      ensures machineIds == old(machineIds) && dateRange == old(dateRange) && reportType == old(reportType)
    {
      machineSearch := search;
    }

    /** A machine's check box: checking appends the id at the end, unchecking
        removes every copy of it. */
    method CheckedChange(id: string, checked: bool)
      modifies this
      ensures checked ==> machineIds == old(machineIds) + [id]
      ensures !checked ==> machineIds == RemoveId(old(machineIds), id)
      ensures IsChecked(id) <==> checked
      ensures machineSearch == old(machineSearch) && dateRange == old(dateRange) && reportType == old(reportType)
    {
      if checked {
        machineIds := machineIds + [id];
      } else {
        machineIds := RemoveId(machineIds, id);
      }
    }

    /** The calendar: a cleared selection leaves both dates absent. */
    method SelectDateRange(range: Option<DateRange>)
      modifies this
      ensures dateRange == if range.Some? then range.value else DateRange(None, None)
      ensures machineSearch == old(machineSearch) && machineIds == old(machineIds) && reportType == old(reportType)
    {
      if range.Some? {
        dateRange := range.value;
      } else {
        dateRange := DateRange(None, None);
      }
    }

    /** The report type select. */
    method SetReportType(t: string)
      modifies this
      ensures reportType == t
      ensures machineSearch == old(machineSearch) && machineIds == old(machineIds) && dateRange == old(dateRange)
    {
      reportType := t;
    }
  }
}
