/**
 * The registry record of a court decision (backend/api/models.py): a
 * two-valued processing status and the `CourtDecision` row.
 */
module CourtModels {
  import opened Wrappers

  /** `DecisionStatus`: the stored value and the human-readable label of each choice. */
  datatype DecisionStatus = Absent | Done {
    function Value(): (v: string)
      ensures |v| <= StatusMaxLength
    {
      match this
      case Absent => "absent"
      case Done => "done"
    }

    function Display(): string {
      match this
      case Absent => "Absent"
      case Done => "Done"
    }
  }

  const IdMaxLength: nat := 150
  const NumberMaxLength: nat := 150
  const StatusMaxLength: nat := 10

  /** The status a stored value stands for; only the two choices are valid. */
  function StatusOfValue(v: string): (r: Option<DecisionStatus>)
    ensures r.Some? <==> v == "absent" || v == "done"
  {
    if v == "absent" then Some(Absent) else if v == "done" then Some(Done) else None
  }

  /** Stored values and statuses correspond one to one. */
  lemma StatusValueRoundTrip(st: DecisionStatus)
    ensures StatusOfValue(st.Value()) == Some(st)
  {
  }

  /** `created_at` is a timestamp set by the database; it is kept as an opaque number. */
  datatype CourtDecision = CourtDecision(
    decisionId: string,
    decisionNumber: string,
    proceedingNumber: string,
    status: DecisionStatus,
    createdAt: int)

  /** The row `get_or_create(decision_id=...)` inserts: empty numbers and the default status. */
  function NewDecision(decisionId: string, createdAt: int): (d: CourtDecision)
    ensures d.decisionId == decisionId && d.status == Absent
    ensures d.decisionNumber == "" && d.proceedingNumber == ""
  {
    CourtDecision(decisionId, "", "", Absent, createdAt)
  }

  /** The column lengths the table declares. */
  predicate FitsColumns(d: CourtDecision) {
    && |d.decisionId| <= IdMaxLength
    && |d.decisionNumber| <= NumberMaxLength
    && |d.proceedingNumber| <= NumberMaxLength
    && |d.status.Value()| <= StatusMaxLength
  }

  /** A freshly created row fits its columns whenever its id does. */
  lemma NewDecisionFits(decisionId: string, createdAt: int)
    requires |decisionId| <= IdMaxLength
    ensures FitsColumns(NewDecision(decisionId, createdAt))
  {
  }

  /** `__str__`: the id, a dash, and the status label. */
  function Describe(d: CourtDecision): (r: string)
    ensures |r| > |d.decisionId| && r[..|d.decisionId|] == d.decisionId
    ensures r[|d.decisionId|..] == " - " + d.status.Display()
  {
    d.decisionId + " - " + d.status.Display()
  }

  /** The description tells the status apart: two rows with the same id and different statuses read differently. */
  lemma DescribeShowsStatus(a: CourtDecision, b: CourtDecision)
    requires a.decisionId == b.decisionId && a.status != b.status
    ensures Describe(a) != Describe(b)
  {
    var n := |a.decisionId|;
    assert Describe(a)[n..] != Describe(b)[n..] by {
      assert (" - " + a.status.Display())[3] != (" - " + b.status.Display())[3];
    }
  }

  /**
   * The registry table: at most one row per decision id, since the column is
   * unique. It is kept as a map from the id to its row.
   */
  predicate KeyedById(records: map<string, CourtDecision>) {
    forall id :: id in records ==> records[id].decisionId == id
  }
}
