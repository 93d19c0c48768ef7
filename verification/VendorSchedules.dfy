/** Which vendor address is current, over all runs: drawing a version and committing are two actions. */
module VendorSchedules {
  import opened Wrappers
  import opened AddressRows
  import opened AddressDb
  import opened AddressProtocol
  import opened AddressRuns

  /** The vendor row that was inserted last among those committed, by position in the history. */
  ghost predicate InsertedLast(s: State, k: nat) {
    && k < |s.inserts| && s.inserts[k].IsVendor() && s.inserts[k].id in s.db.rows
    && forall j | k < j < |s.inserts| && s.inserts[j].IsVendor() :: s.inserts[j].id !in s.db.rows
  }

  lemma RowOfInsert(s: State, k: nat)
    requires Inv(s) && k < |s.inserts| && s.inserts[k].id in s.db.rows
    ensures Original(s.db.rows[s.inserts[k].id]) == s.inserts[k]
  {
    var id := s.inserts[k].id;
    var j :| 0 <= j < |s.inserts| && s.inserts[j] == Original(s.db.rows[id]);
  }

  lemma CurrentWasInsertedLast(s: State, id: Uuid) returns (k: nat)
    requires Inv(s) && IsCurrentVendor(s.db.rows, id)
    ensures InsertedLast(s, k) && s.inserts[k].id == id
  {
    var i :| 0 <= i < |s.inserts| && s.inserts[i] == Original(s.db.rows[id]);
    k := i;
    forall j | k < j < |s.inserts| && s.inserts[j].IsVendor() ensures s.inserts[j].id !in s.db.rows {
      if s.inserts[j].id in s.db.rows {
        RowOfInsert(s, j);
      }
    }
  }

  lemma InsertedLastIsCurrent(s: State, k: nat)
    requires Inv(s) && InsertedLast(s, k)
    ensures IsCurrentVendor(s.db.rows, s.inserts[k].id)
  {
    RowOfInsert(s, k);
    forall other | other in s.db.rows && s.db.rows[other].IsVendor()
      ensures s.db.rows[other].version <= s.db.rows[s.inserts[k].id].version
    {
      var j :| 0 <= j < |s.inserts| && s.inserts[j] == Original(s.db.rows[other]);
    }
  }

  /** The highest version among the committed vendor rows is the last one inserted. */
  lemma CurrentVendorIsInsertedLast(trace: seq<State>, n: nat, id: Uuid)
    requires Run(trace) && n < |trace|
    ensures IsCurrentVendor(trace[n].db.rows, id) <==>
            exists k: nat :: InsertedLast(trace[n], k) && trace[n].inserts[k].id == id
  {
    RunInv(trace, n);
    if IsCurrentVendor(trace[n].db.rows, id) {
      var k := CurrentWasInsertedLast(trace[n], id);
    }
    if k: nat :| InsertedLast(trace[n], k) && trace[n].inserts[k].id == id {
      InsertedLastIsCurrent(trace[n], k);
    }
  }

  /** Among any rows with a vendor row there is one of highest version. */
  lemma {:induction false} HighestVendor(rows: map<Uuid, Address>, ids: set<Uuid>) returns (id: Uuid)
    requires ids <= rows.Keys && (forall i | i in ids :: rows[i].IsVendor()) && ids != {}
    ensures id in ids && forall other | other in ids :: rows[other].version <= rows[id].version
  {
    id :| id in ids;
    var rest := ids - {id};
    assert forall other | other in ids :: other == id || other in rest;
    if rest != {} {
      var best := HighestVendor(rows, rest);
      if rows[id].version < rows[best].version {
        id := best;
      }
    }
  }

  lemma SomeVendorIsCurrent(rows: map<Uuid, Address>)
    ensures (exists id :: IsCurrentVendor(rows, id)) <==> exists id :: id in rows && rows[id].IsVendor()
  {
    if id :| id in rows && rows[id].IsVendor() {
      var vendors := set v | v in rows && rows[v].IsVendor();
      assert id in vendors;
      var best := HighestVendor(rows, vendors);
      assert IsCurrentVendor(rows, best);
    }
  }

  /** There is a current vendor address exactly when there is a vendor address, and then only one. */
  lemma CurrentVendorExists(trace: seq<State>, n: nat)
    requires Run(trace) && n < |trace|
    ensures var rows := trace[n].db.rows;
            && ((exists id :: IsCurrentVendor(rows, id)) <==> exists id :: id in rows && rows[id].IsVendor())
            && forall i, j | IsCurrentVendor(rows, i) && IsCurrentVendor(rows, j) :: i == j
  {
    var rows := trace[n].db.rows;
    SomeVendorIsCurrent(rows);
    forall i, j | IsCurrentVendor(rows, i) && IsCurrentVendor(rows, j) ensures i == j {
      TableFacts(trace, n, i);
    }
  }

  /** `WHERE userid IS NULL ORDER BY version DESC LIMIT 1`. */
  method SelectCurrent(rows: map<Uuid, Address>) returns (r: Option<Uuid>)
    ensures r.Some? ==> IsCurrentVendor(rows, r.value)
    ensures r.None? ==> forall id | id in rows :: !rows[id].IsVendor()
  {
    SomeVendorIsCurrent(rows);
    if id :| id in rows && IsCurrentVendor(rows, id) {
      return Some(id);
    }
    return None;
  }

  /** Only committing a vendor address can change which one is current. */
  lemma CurrentVendorStays(s: State, step: Step, id: Uuid)
    requires Inv(s) && Enabled(s, step)
    requires step.Commit? ==> !s.tasks[step.r].pc.row.IsVendor()
    ensures IsCurrentVendor(Apply(s, step).db.rows, id) <==> IsCurrentVendor(s.db.rows, id)
  {
    var s' := Apply(s, step);
    StepGrowsRows(s, step);
    if step.Commit? {
      assert TaskOk(s, s.tasks[step.r]);
    }
    forall other | other in s.db.rows
      ensures s'.db.rows[other].version == s.db.rows[other].version
      ensures s'.db.rows[other].IsVendor() == s.db.rows[other].IsVendor()
    {
      assert Original(s'.db.rows[other]) == Original(s.db.rows[other]);
    }
    assert forall other | other in s'.db.rows && other !in s.db.rows :: !s'.db.rows[other].IsVendor();
  }

  // ----- The vendor row committed last -----

  ghost predicate Drawn(s: State, id: Uuid) {
    exists k :: 0 <= k < |s.inserts| && s.inserts[k].id == id
  }

  /**
   w overtakes v: at trace[i] v has been inserted and w has not, and at the later trace[j] w is a
   committed vendor row and v is not committed. So w's whole transaction lies inside v's.
   */
  ghost predicate Overtakes(trace: seq<State>, v: Uuid, w: Uuid, i: nat, j: nat) {
    && i < j < |trace|
    && Drawn(trace[i], v) && !Drawn(trace[i], w)
    && w in trace[j].db.rows && trace[j].db.rows[w].IsVendor() && v !in trace[j].db.rows
  }

  lemma NextInserts(s: State, s': State)
    requires Next(s, s')
    ensures s.inserts <= s'.inserts && |s'.inserts| <= |s.inserts| + 1
  {
  }

  lemma InsertsAt(trace: seq<State>, n: nat)
    requires Run(trace) && 0 < n < |trace|
    ensures trace[n - 1].inserts <= trace[n].inserts && |trace[n].inserts| <= |trace[n - 1].inserts| + 1
  {
    NextAt(trace, n);
    NextInserts(trace[n - 1], trace[n]);
  }

  /** The history of inserts only grows. */
  lemma {:induction false} InsertsGrow(trace: seq<State>, m: nat, n: nat)
    requires Run(trace) && m <= n < |trace|
    ensures trace[m].inserts <= trace[n].inserts
    decreases n
  {
    if m < n {
      InsertsGrow(trace, m, n - 1);
      InsertsAt(trace, n);
    }
  }

  /** The history grows by one at a time, so it had every shorter length at some point. */
  lemma {:induction false} WhenSoLong(trace: seq<State>, n: nat, k: nat) returns (i: nat)
    requires Run(trace) && n < |trace| && k <= |trace[n].inserts|
    ensures i <= n && trace[i].inserts == trace[n].inserts[..k]
    decreases n
  {
    if k == |trace[n].inserts| {
      i := n;
    } else {
      InsertsAt(trace, n);
      i := WhenSoLong(trace, n - 1, k);
    }
  }

  /** The other committed vendor rows when v is committed. */
  ghost predicate CommittedBefore(rows: map<Uuid, Address>, rows': map<Uuid, Address>, v: Uuid) {
    && v !in rows && v in rows' && rows'[v].IsVendor()
    && forall w | w in rows' && rows'[w].IsVendor() && w != v :: w in rows && rows[w].IsVendor()
  }

  lemma LastVendorStep(s: State, step: Step, v: Uuid)
    requires Inv(s) && Enabled(s, step) && Apply(s, step).lastVendor == Some(v)
    ensures s.lastVendor == Some(v) || CommittedBefore(s.db.rows, Apply(s, step).db.rows, v)
  {
    if step.Commit? {
      assert TaskOk(s, s.tasks[step.r]);
    }
  }

  /** A vendor row after a step that committed none was one before. */
  lemma VendorBefore(s: State, step: Step, w: Uuid)
    requires Inv(s) && Enabled(s, step) && w in Apply(s, step).db.rows && Apply(s, step).db.rows[w].IsVendor()
    requires step.Commit? ==> !s.tasks[step.r].pc.row.IsVendor()
    ensures w in s.db.rows && s.db.rows[w].IsVendor() && Apply(s, step).db.rows[w].version == s.db.rows[w].version
  {
    StepGrowsRows(s, step);
    if w in s.db.rows {
      assert Original(Apply(s, step).db.rows[w]) == Original(s.db.rows[w]);
    }
  }

  lemma PointerKept(s: State, step: Step, v: Uuid)
    requires Inv(s) && Enabled(s, step) && s.lastVendor == Apply(s, step).lastVendor == Some(v) && v in s.db.rows
    ensures step.Commit? ==> !s.tasks[step.r].pc.row.IsVendor()
  {
    if step.Commit? {
      assert TaskOk(s, s.tasks[step.r]);
    }
  }

  lemma VendorRowsStay(s: State, step: Step, v: Uuid, rows: map<Uuid, Address>)
    requires Inv(s) && Enabled(s, step) && CommittedBefore(rows, s.db.rows, v) && s.lastVendor == Some(v)
    requires Apply(s, step).lastVendor == Some(v)
    ensures CommittedBefore(rows, Apply(s, step).db.rows, v)
  {
    var s' := Apply(s, step);
    PointerKept(s, step, v);
    StepGrowsRows(s, step);
    assert Original(s'.db.rows[v]) == Original(s.db.rows[v]);
    forall w | w in s'.db.rows && s'.db.rows[w].IsVendor() && w != v ensures w in rows && rows[w].IsVendor() {
      VendorBefore(s, step, w);
    }
  }

  lemma LastVendorNext(s: State, s': State, v: Uuid)
    requires Inv(s) && Next(s, s') && s'.lastVendor == Some(v)
    ensures s.lastVendor == Some(v) || CommittedBefore(s.db.rows, s'.db.rows, v)
  {
    var step :| Enabled(s, step) && s' == Apply(s, step);
    LastVendorStep(s, step, v);
  }

  lemma VendorRowsNext(s: State, s': State, v: Uuid, rows: map<Uuid, Address>)
    requires Inv(s) && Next(s, s') && CommittedBefore(rows, s.db.rows, v) && s.lastVendor == s'.lastVendor == Some(v)
    ensures CommittedBefore(rows, s'.db.rows, v)
  {
    var step :| Enabled(s, step) && s' == Apply(s, step);
    VendorRowsStay(s, step, v, rows);
  }

  lemma LastVendorAt(trace: seq<State>, n: nat, v: Uuid)
    requires Run(trace) && 0 < n < |trace| && trace[n].lastVendor == Some(v) && trace[n - 1].lastVendor != Some(v)
    ensures CommittedBefore(trace[n - 1].db.rows, trace[n].db.rows, v)
  {
    RunInv(trace, n - 1);
    NextAt(trace, n);
    LastVendorNext(trace[n - 1], trace[n], v);
  }

  lemma VendorRowsAt(trace: seq<State>, n: nat, v: Uuid, rows: map<Uuid, Address>)
    requires Run(trace) && 0 < n < |trace| && trace[n].lastVendor == trace[n - 1].lastVendor == Some(v)
    requires CommittedBefore(rows, trace[n - 1].db.rows, v)
    ensures CommittedBefore(rows, trace[n].db.rows, v)
  {
    RunInv(trace, n - 1);
    NextAt(trace, n);
    VendorRowsNext(trace[n - 1], trace[n], v, rows);
  }

  /** Just before the last vendor row was committed, all the others were. */
  lemma {:induction false} WhenCommitted(trace: seq<State>, n: nat, v: Uuid) returns (j: nat)
    requires Run(trace) && n < |trace| && trace[n].lastVendor == Some(v)
    ensures j < n && CommittedBefore(trace[j].db.rows, trace[n].db.rows, v)
    decreases n
  {
    if trace[n - 1].lastVendor == Some(v) {
      j := WhenCommitted(trace, n - 1, v);
      VendorRowsAt(trace, n, v, trace[j].db.rows);
    } else {
      j := n - 1;
      LastVendorAt(trace, n, v);
    }
  }

  /** Where in the history a row comes from. */
  lemma Origin(s: State, id: Uuid) returns (k: nat)
    requires Inv(s) && id in s.db.rows
    ensures k < |s.inserts| && s.inserts[k].id == id && s.inserts[k].version == s.db.rows[id].version
  {
    assert Original(s.db.rows[id]) in s.inserts;
    k :| k < |s.inserts| && s.inserts[k] == Original(s.db.rows[id]);
  }

  lemma OriginsInOrder(s: State, v: Uuid, w: Uuid, k: nat, l: nat)
    requires Inv(s) && v in s.db.rows && w in s.db.rows && k < |s.inserts| && l < |s.inserts|
    requires s.inserts[k].id == v && s.inserts[l].id == w
    ensures s.db.rows[v].version < s.db.rows[w].version <==> k < l
  {
    RowOfInsert(s, k);
    RowOfInsert(s, l);
    var a, b := s.db.rows[v], s.db.rows[w];
    assert a.version == Original(a).version && b.version == Original(b).version;
  }

  lemma CommitsOnce(trace: seq<State>, n: nat, v: Uuid, j: nat)
    requires Run(trace) && n < |trace| && j < |trace| && v in trace[n].db.rows && v !in trace[j].db.rows
    ensures j < n
  {
    if n <= j {
      RunGrowsRows(trace, n, j);
    }
  }

  /** What is drawn later stands later in the history. */
  lemma DrawnAfter(trace: seq<State>, n: nat, i: nat, v: Uuid, w: Uuid) returns (k: nat, l: nat)
    requires Run(trace) && i <= n < |trace| && Drawn(trace[i], v) && !Drawn(trace[i], w) && w in trace[n].db.rows
    ensures k < l < |trace[n].inserts| && trace[n].inserts[k].id == v && trace[n].inserts[l].id == w
  {
    RunInv(trace, n);
    InsertsGrow(trace, i, n);
    k :| k < |trace[i].inserts| && trace[i].inserts[k].id == v;
    l := Origin(trace[n], w);
    assert forall m | 0 <= m < |trace[i].inserts| :: trace[i].inserts[m] == trace[n].inserts[m];
  }

  lemma OvertakenIsNotCurrent(trace: seq<State>, n: nat, v: Uuid, w: Uuid, i: nat, j: nat)
    requires Run(trace) && n < |trace| && v in trace[n].db.rows && Overtakes(trace, v, w, i, j)
    ensures !IsCurrentVendor(trace[n].db.rows, v)
  {
    CommitsOnce(trace, n, v, j);
    RunGrowsRows(trace, j, n);
    assert Original(trace[n].db.rows[w]) == Original(trace[j].db.rows[w]);
    var k, l := DrawnAfter(trace, n, i, v, w);
    RunInv(trace, n);
    OriginsInOrder(trace[n], v, w, k, l);
  }

  lemma NotCurrentIsOvertaken(trace: seq<State>, n: nat, v: Uuid) returns (w: Uuid, i: nat, j: nat)
    requires Run(trace) && n < |trace| && trace[n].lastVendor == Some(v) && !IsCurrentVendor(trace[n].db.rows, v)
    ensures Overtakes(trace, v, w, i, j)
  {
    j := WhenCommitted(trace, n, v);
    RunInv(trace, n);
    w :| w in trace[n].db.rows && trace[n].db.rows[w].IsVendor() && trace[n].db.rows[w].version > trace[n].db.rows[v].version;
    var k := Origin(trace[n], v);
    var l := Origin(trace[n], w);
    OriginsInOrder(trace[n], v, w, k, l);
    i := WhenSoLong(trace, n, k + 1);
    assert trace[i].inserts[k].id == v;
    DrawnLater(trace, n, j, w, l);
    if j <= i {
      InsertsGrow(trace, j, i);
    }
  }

  /** A committed row was drawn before: the history at its commit is longer than its place in it. */
  lemma DrawnLater(trace: seq<State>, n: nat, j: nat, w: Uuid, l: nat)
    requires Run(trace) && j <= n < |trace| && w in trace[j].db.rows && l < |trace[n].inserts| && trace[n].inserts[l].id == w
    ensures l < |trace[j].inserts|
  {
    RunInv(trace, j);
    RunInv(trace, n);
    InsertsGrow(trace, j, n);
    var m := Origin(trace[j], w);
    assert trace[n].inserts[m].id == w;
  }

  /**
   The vendor row committed last is the current one exactly when no vendor address was inserted and
   committed while its own transaction was open.
   */
  lemma LastCommittedIsCurrent(trace: seq<State>, n: nat, v: Uuid)
    requires Run(trace) && n < |trace| && trace[n].lastVendor == Some(v)
    ensures IsCurrentVendor(trace[n].db.rows, v) <==> !exists w, i, j :: Overtakes(trace, v, w, i, j)
  {
    if !IsCurrentVendor(trace[n].db.rows, v) {
      var w, i, j := NotCurrentIsOvertaken(trace, n, v);
    }
    if w, i, j :| Overtakes(trace, v, w, i, j) {
      var c := WhenCommitted(trace, n, v);
      OvertakenIsNotCurrent(trace, n, v, w, i, j);
    }
  }

  // ----- One vendor address at a time -----

  ghost predicate OpenVendor(s: State, r: nat) {
    r in s.tasks && s.tasks[r].pc.Inserted? && s.tasks[r].pc.row.IsVendor()
  }

  /** What a caller who waits for one creation before starting the next sees to. */
  ghost predicate OneOpenVendor(s: State) {
    forall r, q | OpenVendor(s, r) && OpenVendor(s, q) :: r == q
  }

  ghost predicate Above(rows: map<Uuid, Address>, version: int) {
    forall w | w in rows && rows[w].IsVendor() :: rows[w].version < version
  }

  ghost predicate Serial(s: State) {
    && (if s.lastVendor.Some? then IsCurrentVendor(s.db.rows, s.lastVendor.value)
        else forall w | w in s.db.rows :: !s.db.rows[w].IsVendor())
    && forall r | OpenVendor(s, r) :: Above(s.db.rows, s.tasks[r].pc.row.version)
  }

  lemma DrawnAbove(s: State)
    requires Inv(s)
    ensures Above(s.db.rows, s.db.nextVersion)
  {
    forall w | w in s.db.rows ensures s.db.rows[w].version < s.db.nextVersion {
      assert InsertOk(Original(s.db.rows[w]), s.db);
    }
  }

  lemma VendorVersionsStay(s: State, step: Step, version: int)
    requires Inv(s) && Enabled(s, step) && Above(s.db.rows, version)
    requires step.Commit? ==> !s.tasks[step.r].pc.row.IsVendor()
    ensures Above(Apply(s, step).db.rows, version)
    ensures (forall w | w in s.db.rows :: !s.db.rows[w].IsVendor()) ==>
              forall w | w in Apply(s, step).db.rows :: !Apply(s, step).db.rows[w].IsVendor()
  {
    forall w | w in Apply(s, step).db.rows && Apply(s, step).db.rows[w].IsVendor()
      ensures w in s.db.rows && s.db.rows[w].IsVendor() && Apply(s, step).db.rows[w].version == s.db.rows[w].version
    {
      VendorBefore(s, step, w);
    }
  }

  /** A vendor row that is open was open before, or has just been drawn. */
  lemma OpenBefore(s: State, step: Step, r: nat)
    requires Enabled(s, step) && OpenVendor(Apply(s, step), r)
    ensures var row := Apply(s, step).tasks[r].pc.row;
            (OpenVendor(s, r) && s.tasks[r].pc.row == row) || row.version == s.db.nextVersion
  {
  }

  lemma OpenStaysAbove(s: State, step: Step, r: nat)
    requires Inv(s) && Serial(s) && Enabled(s, step) && OpenVendor(Apply(s, step), r)
    requires step.Commit? ==> !s.tasks[step.r].pc.row.IsVendor()
    ensures Above(Apply(s, step).db.rows, Apply(s, step).tasks[r].pc.row.version)
  {
    OpenBefore(s, step, r);
    DrawnAbove(s);
    VendorVersionsStay(s, step, Apply(s, step).tasks[r].pc.row.version);
  }

  lemma PointerStays(s: State, step: Step)
    requires Inv(s) && Serial(s) && Enabled(s, step)
    requires step.Commit? ==> !s.tasks[step.r].pc.row.IsVendor()
    ensures var s' := Apply(s, step);
            if s'.lastVendor.Some? then IsCurrentVendor(s'.db.rows, s'.lastVendor.value)
            else forall w | w in s'.db.rows :: !s'.db.rows[w].IsVendor()
  {
    assert Apply(s, step).lastVendor == s.lastVendor;
    if s.lastVendor.Some? {
      CurrentVendorStays(s, step, s.lastVendor.value);
    } else {
      DrawnAbove(s);
      VendorVersionsStay(s, step, s.db.nextVersion);
    }
  }

  lemma QuietVendorStep(s: State, step: Step)
    requires Inv(s) && Serial(s) && Enabled(s, step)
    requires step.Commit? ==> !s.tasks[step.r].pc.row.IsVendor()
    ensures Serial(Apply(s, step))
  {
    PointerStays(s, step);
    forall r | OpenVendor(Apply(s, step), r) ensures Above(Apply(s, step).db.rows, Apply(s, step).tasks[r].pc.row.version) {
      OpenStaysAbove(s, step, r);
    }
  }

  lemma VendorCommitStep(s: State, r: nat)
    requires Inv(s) && Serial(s) && OneOpenVendor(s) && Enabled(s, Commit(r)) && OpenVendor(s, r)
    ensures Serial(Apply(s, Commit(r)))
  {
    var s' := Apply(s, Commit(r));
    var row := s.tasks[r].pc.row;
    assert TaskOk(s, s.tasks[r]);
    assert s'.db.rows == s.db.rows[row.id := row];
    assert IsCurrentVendor(s'.db.rows, row.id);
    assert forall q :: !OpenVendor(s', q) by {
      forall q ensures !OpenVendor(s', q) {
        if q != r {
          assert OpenVendor(s', q) ==> OpenVendor(s, q);
        }
      }
    }
  }

  lemma SerialNext(s: State, s': State)
    requires Inv(s) && Serial(s) && OneOpenVendor(s) && Next(s, s')
    ensures Serial(s')
  {
    var step :| Enabled(s, step) && s' == Apply(s, step);
    if step.Commit? && s.tasks[step.r].pc.row.IsVendor() {
      VendorCommitStep(s, step.r);
    } else {
      QuietVendorStep(s, step);
    }
  }

  /** If vendor addresses are created one at a time, the one committed last is always the current one. */
  lemma {:induction false} OneAtATimeIsCurrent(trace: seq<State>, n: nat)
    requires Run(trace) && n < |trace| && forall m | 0 <= m < n :: OneOpenVendor(trace[m])
    ensures Serial(trace[n])
    decreases n
  {
    if n > 0 {
      OneAtATimeIsCurrent(trace, n - 1);
      RunInv(trace, n - 1);
      NextAt(trace, n);
      SerialNext(trace[n - 1], trace[n]);
    }
  }

  /** Then the pointer to it needs no version: it is there when a vendor row is, and names that row. */
  lemma PointerIsCurrent(trace: seq<State>, n: nat, id: Uuid)
    requires Run(trace) && n < |trace| && forall m | 0 <= m < n :: OneOpenVendor(trace[m])
    ensures trace[n].lastVendor == Some(id) <==> IsCurrentVendor(trace[n].db.rows, id)
  {
    OneAtATimeIsCurrent(trace, n);
    CurrentVendorExists(trace, n);
  }

  // ----- A run on which it is not -----

  lemma Go(trace: seq<State>, step: Step) returns (longer: seq<State>)
    requires Run(trace) && Enabled(trace[|trace| - 1], step)
    ensures Run(longer) && longer[|longer| - 1] == Apply(trace[|trace| - 1], step)
  {
    RunExtends(trace, step);
    longer := trace + [Apply(trace[|trace| - 1], step)];
  }

  function TwoVendors(input: Input, first: Pc, second: Pc): map<nat, Task> {
    map[0 := Task(CreateVendor(input), first), 1 := Task(CreateVendor(input), second)]
  }

  lemma TwoAuthorized(input: Input) returns (trace: seq<State>)
    ensures Run(trace)
    ensures trace[|trace| - 1] == State(Db({}, map[], 0), TwoVendors(input, Authorized, Authorized), [], [], None)
  {
    trace := [State(Db({}, map[], 0), map[], [], [], None)];
    trace := Go(trace, Arrive(0, CreateVendor(input)));
    trace := Go(trace, Arrive(1, CreateVendor(input)));
    assert trace[|trace| - 1].tasks == TwoVendors(input, Start, Start);
    trace := Go(trace, Authorize(0, true));
    trace := Go(trace, Authorize(1, true));
    assert trace[|trace| - 1].tasks == TwoVendors(input, Authorized, Authorized);
  }

  lemma TwoInserted(input: Input) returns (trace: seq<State>)
    ensures Run(trace)
    ensures var first, second := NewRow(input, None, 0, 0), NewRow(input, None, 1, 1);
            trace[|trace| - 1] ==
            State(Db({}, map[], 2), TwoVendors(input, Inserted(first), Inserted(second)), [], [first, second], None)
  {
    var first, second := NewRow(input, None, 0, 0), NewRow(input, None, 1, 1);
    trace := TwoAuthorized(input);
    trace := Go(trace, Insert(0, 0));
    assert trace[|trace| - 1].tasks == TwoVendors(input, Inserted(first), Authorized);
    trace := Go(trace, Insert(1, 1));
    assert trace[|trace| - 1].tasks == TwoVendors(input, Inserted(first), Inserted(second));
  }

  /**
   Two vendor addresses inserted in one order and committed in the other: afterwards the row
   committed last is not the current one.
   */
  lemma CommitOrderIsNotInsertOrder(input: Input) returns (trace: seq<State>)
    ensures Run(trace)
    ensures var s := trace[|trace| - 1];
            s.lastVendor == Some(0) && IsCurrentVendor(s.db.rows, 1) && !IsCurrentVendor(s.db.rows, 0)
  {
    var first, second := NewRow(input, None, 0, 0), NewRow(input, None, 1, 1);
    trace := TwoInserted(input);
    trace := Go(trace, Commit(1));
    trace := Go(trace, Commit(0));
    assert trace[|trace| - 1].db.rows == map[1 := second, 0 := first];
  }
}
