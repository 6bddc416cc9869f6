/**
  `BulkOps::Operation`: a bulk job over one spreadsheet. The operation owns
  a table of work proxies (one per spreadsheet row), walks through its
  stages, and hands each parsed row to a background job. The database, the
  git store, the clock and the job queue are outside the model: the proxy
  table is a sequence of records, a submitted job is appended to `jobs`,
  and the spreadsheet, user and time arrive as parameters.
 */
module Operations {
  import opened Text
  import opened BulkOps
  import opened Errors
  import opened Cells
  import opened Interpretation
  import opened Relationships
  import opened Proxies
  import opened RowParser

  // ---------------------------------------------------------------------
  // unique_name

  /** `name[-1].to_i`: the value of a last digit, 0 for anything else
      (and for the empty name, whose `name[-1]` is nil). */
  function LastDigit(name: string): (d: nat)
    ensures d <= 9
  {
    if |name| > 0 && IsDigit(name[|name| - 1]) then name[|name| - 1] as int - '0' as int else 0
  }

  /** The name ends in `-` or `_` and a digit from 1 to 9. */
  predicate Counted(name: string) {
    |name| >= 2 && name[|name| - 2] in "-_" && LastDigit(name) > 0
  }

  /** One round of the loop: the last digit goes up by one
      (`name[0..-2] + (d + 1).to_s`), or `_1` is appended. */
  function NextName(name: string): string {
    if Counted(name) then
      var d := LastDigit(name);
      name[..|name| - 1] + (if d < 9 then [('0' as int + d + 1) as char] else "10")
    else name + "_1"
  }

  /** The name after k rounds. */
  function Renamed(name: string, k: nat): string {
    if k == 0 then name else NextName(Renamed(name, k - 1))
  }

  predicate Taken(operationNames: seq<string>, branchNames: seq<string>, name: string) {
    name in operationNames || name in branchNames
  }

  /** A measure every round increases. */
  function Weight(name: string): nat {
    10 * |name| + LastDigit(name)
  }

  function MaxWeight(names: seq<string>): nat {
    if names == [] then 0 else
      var m := MaxWeight(names[1..]);
      if Weight(names[0]) > m then Weight(names[0]) else m
  }

  lemma {:induction false} MaxWeightBounds(names: seq<string>, name: string)
    requires name in names
    ensures Weight(name) <= MaxWeight(names)
  {
    if names[0] != name {
      MaxWeightBounds(names[1..], name);
    }
  }

  /** Each round makes the name heavier, so no round returns to a name
      already tried. */
  lemma NextNameWeighsMore(name: string)
    ensures Weight(NextName(name)) > Weight(name)
  {
    var n := |name|;
    if Counted(name) {
      var d := LastDigit(name);
      var r := NextName(name);
      if d < 9 {
        assert |r| == n && r[n - 1] == ('0' as int + d + 1) as char;
        assert LastDigit(r) == d + 1;
      } else {
        assert |r| == n + 1 && r[n] == '0';
      }
    } else {
      var r := name + "_1";
      assert r[|r| - 1] == '1';
      assert LastDigit(r) == 1;
    }
  }

  lemma {:induction false} RenamedWeighs(name: string, i: nat, j: nat)
    requires i < j
    ensures Weight(Renamed(name, i)) < Weight(Renamed(name, j))
    decreases j
  {
    NextNameWeighsMore(Renamed(name, j - 1));
    if i < j - 1 {
      RenamedWeighs(name, i, j - 1);
    }
  }

  /** The names tried are pairwise different. */
  lemma RenamedDistinct(name: string, i: nat, j: nat)
    requires i != j
    ensures Renamed(name, i) != Renamed(name, j)
  {
    if i < j {
      RenamedWeighs(name, i, j);
    } else {
      RenamedWeighs(name, j, i);
    }
  }

  /** A name not ending in a separator and a non-zero digit gets `_1`, so
      a taken "x" becomes "x_1". */
  lemma NextNameAppends(name: string)
    requires !Counted(name)
    ensures NextName(name) == name + "_1"
  {
  }

  /** A name ending in a separator and a digit below 9 has its digit
      incremented, so a taken "x_1" becomes "x_2". */
  lemma NextNameIncrements(stem: string, sep: char, d: nat)
    requires sep in "-_" && 1 <= d <= 8
    ensures NextName(stem + [sep, ('0' as int + d) as char]) == stem + [sep, ('0' as int + d + 1) as char]
  {
    var name := stem + [sep, ('0' as int + d) as char];
    assert name[..|name| - 1] == stem + [sep];
    assert LastDigit(name) == d;
  }

  /** `Operation.unique_name(name, user)`: while the name belongs to an
      operation or a branch, try the next one. The result is free, a free
      name is kept, and it is the first free name of the sequence of
      renamings. */
  method UniqueName(name: string, operationNames: seq<string>, branchNames: seq<string>) returns (r: string)
    ensures !Taken(operationNames, branchNames, r)
    ensures !Taken(operationNames, branchNames, name) ==> r == name
    ensures exists k: nat :: r == Renamed(name, k) &&
              forall j: nat :: j < k ==> Taken(operationNames, branchNames, Renamed(name, j))
  {
    r := name;
    ghost var k: nat := 0;
    var all := operationNames + branchNames;
    while Taken(operationNames, branchNames, r)
      invariant r == Renamed(name, k)
      invariant forall j: nat :: j < k ==> Taken(operationNames, branchNames, Renamed(name, j))
      decreases MaxWeight(all) - Weight(r)
    {
      MaxWeightBounds(all, r);
      NextNameWeighsMore(r);
      r := NextName(r);
      k := k + 1;
    }
  }

  // ---------------------------------------------------------------------
  // The proxy table and the job queue

  /** A row of the operation's `work_proxies` table. */
  datatype Proxy = Proxy(id: int, state: ProxyState)

  datatype JobKind = WorkJob | UpdateWorkJob

  /** A `perform_later(work_type, email, data, proxy_id, visibility)`. */
  datatype Job = Job(kind: JobKind, workType: string, email: string, data: Metadata, proxyId: int,
                     visibility: Option<string>)

  /** The index of the first record satisfying `p` (`find_by`, `find`). */
  function FirstWhere<T>(xs: seq<T>, p: T -> bool): (k: Option<nat>)
    ensures k.Some? ==> k.value < |xs| && p(xs[k.value]) && forall j :: 0 <= j < k.value ==> !p(xs[j])
    ensures k.None? ==> forall j :: 0 <= j < |xs| ==> !p(xs[j])
  {
    if |xs| == 0 then None
    else if p(xs[0]) then Some(0)
    else match FirstWhere(xs[1..], p)
      case None => None
      case Some(k) => assert forall j :: 1 <= j <= k ==> xs[j] == xs[1..][j - 1]; Some(k + 1)
  }

  function AtRow(r: int): Proxy -> bool {
    (p: Proxy) => p.state.rowNumber == r
  }

  /** `work_proxies.find_by(row_number: r)&.id` */
  function IdAtRow(ps: seq<Proxy>): int -> Option<int> {
    r => match FirstWhere(ps, AtRow(r)) case Some(k) => Some(ps[k].id) case None => None
  }

  // ---------------------------------------------------------------------
  // Stages and busy?

  predicate IsDraft(stage: string) {
    stage == "draft"
  }

  /** `running?` covers the finishing stage too. */
  predicate IsRunning(stage: string) {
    stage in ["running", "finishing"]
  }

  predicate IsComplete(stage: string) {
    stage == "complete"
  }

  lemma StagesExclusive(stage: string)
    ensures !(IsDraft(stage) && IsRunning(stage))
    ensures !(IsDraft(stage) && IsComplete(stage))
    ensures !(IsRunning(stage) && IsComplete(stage))
    ensures IsRunning(stage) <==> stage == "running" || stage == "finishing"
  {
  }

  const BUSY_STATUSES: seq<string> := ["running", "queued", "starting"]

  /** `work_proxies.any?{|prx| prx.status.downcase == status}` */
  function AnyWithStatus(ps: seq<Proxy>, status: string): bool {
    if ps == [] then false else Lower(ps[0].state.status) == status || AnyWithStatus(ps[1..], status)
  }

  /** `busy?`: the three `any?` tests in order. */
  predicate Busy(ps: seq<Proxy>) {
    AnyWithStatus(ps, "running") || AnyWithStatus(ps, "queued") || AnyWithStatus(ps, "starting")
  }

  lemma {:induction false} AnyWithStatusSpec(ps: seq<Proxy>, status: string)
    ensures AnyWithStatus(ps, status) <==> exists i :: 0 <= i < |ps| && Lower(ps[i].state.status) == status
  {
    if ps != [] {
      AnyWithStatusSpec(ps[1..], status);
      if AnyWithStatus(ps[1..], status) {
        var i :| 0 <= i < |ps[1..]| && Lower(ps[1..][i].state.status) == status;
        assert ps[i + 1] == ps[1..][i];
      }
      if exists i :: 0 <= i < |ps| && Lower(ps[i].state.status) == status {
        var i :| 0 <= i < |ps| && Lower(ps[i].state.status) == status;
        if i > 0 {
          assert ps[1..][i - 1] == ps[i];
        }
      }
    }
  }

  /** The operation is busy exactly when some proxy's status is, ignoring
      case, running, queued or starting; without proxies it is not. */
  lemma BusySpec(ps: seq<Proxy>)
    ensures Busy(ps) <==> exists i :: 0 <= i < |ps| && Lower(ps[i].state.status) in BUSY_STATUSES
    ensures !Busy([])
  {
    AnyWithStatusSpec(ps, "running");
    AnyWithStatusSpec(ps, "queued");
    AnyWithStatusSpec(ps, "starting");
  }

  // ---------------------------------------------------------------------
  // Option defaults

  /** `work_type`: the configured type, else "work". */
  function OperationWorkType(o: Options): (r: string)
    ensures o.workType.Some? ==> r == o.workType.value
    ensures o.workType.None? ==> r == "work"
  {
    if o.workType.Some? then o.workType.value else "work"
  }

  /** `reference_identifier`: the configured scheme, else "id/row". */
  function OperationReferenceIdentifier(o: Options): (r: string)
    ensures o.referenceIdentifier.Some? ==> r == o.referenceIdentifier.value
    ensures o.referenceIdentifier.None? ==> r == "id/row"
  {
    if o.referenceIdentifier.Some? then o.referenceIdentifier.value else "id/row"
  }

  // ---------------------------------------------------------------------
  // proxy_states

  /** The proxies with this status, in table order. */
  function WithStatus(ps: seq<Proxy>, status: string): seq<Proxy> {
    if ps == [] then []
    else WithStatus(ps[..|ps| - 1], status) + (if ps[|ps| - 1].state.status == status then [ps[|ps| - 1]] else [])
  }

  /** A proxy is in the bucket of a status exactly when it has that status,
      so each proxy is in the bucket of its own status and in no other. */
  lemma {:induction false} WithStatusSpec(ps: seq<Proxy>, status: string, p: Proxy)
    ensures p in WithStatus(ps, status) <==> p in ps && p.state.status == status
  {
    if ps != [] {
      var init := ps[..|ps| - 1];
      WithStatusSpec(init, status, p);
      assert ps == init + [ps[|ps| - 1]];
    }
  }

  lemma WithStatusNone(ps: seq<Proxy>, status: string)
    requires forall i :: 0 <= i < |ps| ==> ps[i].state.status != status
    ensures WithStatus(ps, status) == []
  {
    if WithStatus(ps, status) != [] {
      WithStatusSpec(ps, status, WithStatus(ps, status)[0]);
    }
  }

  // ---------------------------------------------------------------------
  // apply!: the proxies kept and the rows to ingest

  /** `proxy.status == "complete" && proxy.work_id.present?` */
  predicate CompleteWithWork(p: Proxy) {
    p.state.status == "complete" && p.state.workId.Some? && !IsBlank(p.state.workId.value)
  }

  /** `complete_proxies`: the finished proxies, in table order. */
  function KeptProxies(ps: seq<Proxy>): (r: seq<Proxy>)
    ensures forall i :: 0 <= i < |r| ==> CompleteWithWork(r[i]) && r[i] in ps
    ensures forall i :: 0 <= i < |ps| && CompleteWithWork(ps[i]) ==> ps[i] in r
  {
    if ps == [] then []
    else
      var init := KeptProxies(ps[..|ps| - 1]);
      assert forall i :: 0 <= i < |ps| - 1 ==> ps[i] == ps[..|ps| - 1][i];
      init + (if CompleteWithWork(ps[|ps| - 1]) then [ps[|ps| - 1]] else [])
  }

  function RowNumbers(ps: seq<Proxy>): (r: seq<int>)
    ensures |r| == |ps| && forall i :: 0 <= i < |ps| ==> r[i] == ps[i].state.rowNumber
  {
    seq(|ps|, i requires 0 <= i < |ps| => ps[i].state.rowNumber)
  }

  /** `Array(lo..n-1) - done`, in increasing order. */
  function RowsFrom(lo: int, n: int, done: seq<int>): (r: seq<int>)
    decreases n - lo
    ensures forall i :: 0 <= i < |r| ==> lo <= r[i] < n && r[i] !in done
    ensures forall k :: lo <= k < n && k !in done ==> k in r
    ensures forall i, j :: 0 <= i < j < |r| ==> r[i] < r[j]
  {
    if lo >= n then [] else (if lo in done then [] else [lo]) + RowsFrom(lo + 1, n, done)
  }

  /** `incomplete_row_numbers`: the rows 0..n-1 no kept proxy stands for. */
  function IncompleteRows(n: int, done: seq<int>): seq<int> {
    RowsFrom(0, n, done)
  }

  /** `@metadata[row_number]`, nil (empty) outside the sheet. */
  function RowAt(sheet: seq<Row>, r: int): Row {
    if 0 <= r < |sheet| then sheet[r] else []
  }

  /** `values.to_s.gsub(',','').blank?`: the row printed as a CSV line is
      blank once its commas are gone, which holds when every cell is blank
      and none needs quotes (a line break would be quoted). */
  predicate RowBlank(row: Row) {
    forall i :: 0 <= i < |row| ==> IsBlank(row[i].1) && '\n' !in row[i].1 && '\r' !in row[i].1
  }

  /** The rows `apply!` creates no proxy for. */
  predicate Skipped(schema: Schema, sheet: seq<Row>, typeCellAt: int -> Option<string>, r: int) {
    RowBlank(RowAt(sheet, r)) || FileSetRow(schema, sheet, r, typeCellAt(r))
  }

  const INGEST_MESSAGE: string := "Bulk operation initiated by "
  const CREATED_MESSAGE: string := "created during ingest initiated by "

  /** The record `work_proxies.create(status: "new", ...)` makes. */
  function NewProxy(id: int, r: int, o: Options, user: string): Proxy {
    Proxy(id, ProxyState(r, "new", Some(CREATED_MESSAGE + user), None, Some(OperationWorkType(o)), o.visibility,
                         None, None, None, None, []))
  }

  /** The proxies the creation loop adds for `rows`, numbered from `id`. */
  function Created(rows: seq<int>, skip: int -> bool, id: int, o: Options, user: string): seq<Proxy>
    decreases |rows|
  {
    if rows == [] then []
    else if skip(rows[0]) then Created(rows[1..], skip, id, o, user)
    else [NewProxy(id, rows[0], o, user)] + Created(rows[1..], skip, id + 1, o, user)
  }

  /** The created proxies are "new" records with fresh consecutive ids,
      each for a row that is not skipped. */
  lemma {:induction false} CreatedShape(rows: seq<int>, skip: int -> bool, id: int, o: Options, user: string)
    ensures var c := Created(rows, skip, id, o, user);
      |c| <= |rows| &&
      forall i :: 0 <= i < |c| ==> c[i] == NewProxy(id + i, c[i].state.rowNumber, o, user) &&
                                     c[i].state.rowNumber in rows && !skip(c[i].state.rowNumber)
    decreases |rows|
  {
    if rows != [] {
      var tail := rows[1..];
      var id1 := if skip(rows[0]) then id else id + 1;
      CreatedShape(tail, skip, id1, o, user);
      var c := Created(rows, skip, id, o, user);
      var ct := Created(tail, skip, id1, o, user);
      if skip(rows[0]) {
        assert c == ct;
        forall i | 0 <= i < |c|
          ensures c[i].state.rowNumber in rows
        {
          assert ct[i].state.rowNumber in tail;
        }
      } else {
        assert c == [NewProxy(id, rows[0], o, user)] + ct;
        forall i | 0 <= i < |c|
          ensures c[i] == NewProxy(id + i, c[i].state.rowNumber, o, user) &&
                  c[i].state.rowNumber in rows && !skip(c[i].state.rowNumber)
        {
          if i > 0 {
            assert c[i] == ct[i - 1];
            assert ct[i - 1].state.rowNumber in tail;
          }
        }
      }
    }
  }

  /** A row that is not skipped gets a created proxy. */
  lemma {:induction false} CreatedCoversRow(rows: seq<int>, skip: int -> bool, id: int, o: Options, user: string, r: int)
    requires r in rows && !skip(r)
    ensures exists i :: 0 <= i < |Created(rows, skip, id, o, user)| && Created(rows, skip, id, o, user)[i].state.rowNumber == r
    decreases |rows|
  {
    var c := Created(rows, skip, id, o, user);
    var tail := rows[1..];
    if r == rows[0] {
      assert c[0].state.rowNumber == r;
    } else {
      assert r in tail;
      var id1 := if skip(rows[0]) then id else id + 1;
      CreatedCoversRow(tail, skip, id1, o, user, r);
      var ct := Created(tail, skip, id1, o, user);
      var i :| 0 <= i < |ct| && ct[i].state.rowNumber == r;
      if skip(rows[0]) {
        assert c == ct;
      } else {
        assert c == [NewProxy(id, rows[0], o, user)] + ct;
        assert c[i + 1] == ct[i];
      }
    }
  }

  /** The created proxies are "new" records with fresh consecutive ids, one
      for each row that is not skipped and none for a skipped row. */
  lemma CreatedSpec(rows: seq<int>, skip: int -> bool, id: int, o: Options, user: string)
    ensures var c := Created(rows, skip, id, o, user);
      |c| <= |rows| &&
      (forall i :: 0 <= i < |c| ==> c[i] == NewProxy(id + i, c[i].state.rowNumber, o, user) &&
                                      c[i].state.rowNumber in rows && !skip(c[i].state.rowNumber)) &&
      (forall r :: r in rows && !skip(r) ==> exists i :: 0 <= i < |c| && c[i].state.rowNumber == r)
  {
    CreatedShape(rows, skip, id, o, user);
    forall r | r in rows && !skip(r)
      ensures exists i :: 0 <= i < |Created(rows, skip, id, o, user)| && Created(rows, skip, id, o, user)[i].state.rowNumber == r
    {
      CreatedCoversRow(rows, skip, id, o, user, r);
    }
  }

  lemma CreatedStep(rows: seq<int>, i: nat, skip: int -> bool, id: int, o: Options, user: string)
    requires i < |rows|
    ensures Created(rows[i..], skip, id, o, user) ==
      if skip(rows[i]) then Created(rows[i + 1..], skip, id, o, user)
      else [NewProxy(id, rows[i], o, user)] + Created(rows[i + 1..], skip, id + 1, o, user)
  {
    assert rows[i..][1..] == rows[i + 1..];
  }

  /** No kept proxy stands for an incomplete row. */
  lemma KeptMisses(kept: seq<Proxy>, n: int, r: int)
    requires r in IncompleteRows(n, RowNumbers(kept))
    ensures forall i :: 0 <= i < |kept| ==> kept[i].state.rowNumber != r
  {
    forall i | 0 <= i < |kept|
      ensures kept[i].state.rowNumber != r
    {
      assert RowNumbers(kept)[i] == kept[i].state.rowNumber;
    }
  }

  /** After the creation loop, an incomplete row has a proxy exactly when
      it was not skipped: no kept proxy stands for it, and the creation
      loop made one unless it was skipped. */
  lemma IncompleteRowProxy(kept: seq<Proxy>, n: int, skip: int -> bool, id: int, o: Options, user: string, r: int)
    requires r in IncompleteRows(n, RowNumbers(kept))
    ensures var ps := kept + Created(IncompleteRows(n, RowNumbers(kept)), skip, id, o, user);
      FirstWhere(ps, AtRow(r)).Some? <==> !skip(r)
  {
    KeptMisses(kept, n, r);
    FoundIffCreated(kept, IncompleteRows(n, RowNumbers(kept)), skip, id, o, user, r);
  }

  /** In the table of kept proxies followed by the created ones, a row no
      kept proxy stands for is found exactly when it was not skipped. */
  lemma FoundIffCreated(kept: seq<Proxy>, rows: seq<int>, skip: int -> bool, id: int, o: Options, user: string, r: int)
    requires r in rows && forall i :: 0 <= i < |kept| ==> kept[i].state.rowNumber != r
    ensures var ps := kept + Created(rows, skip, id, o, user);
      FirstWhere(ps, AtRow(r)).Some? <==> !skip(r)
  {
    var c := Created(rows, skip, id, o, user);
    var ps := kept + c;
    if !skip(r) {
      CreatedCoversRow(rows, skip, id, o, user, r);
      var i :| 0 <= i < |c| && c[i].state.rowNumber == r;
      assert ps[|kept| + i] == c[i];
      assert AtRow(r)(ps[|kept| + i]);
    } else {
      CreatedShape(rows, skip, id, o, user);
      forall j | 0 <= j < |ps|
        ensures !AtRow(r)(ps[j])
      {
        if j >= |kept| {
          assert ps[j] == c[j - |kept|];
        }
      }
    }
  }

  /** The proxy an incomplete row is found with is one the creation loop
      made: a "new" record for that row. */
  lemma IncompleteRowIsNew(kept: seq<Proxy>, n: int, skip: int -> bool, id: int, o: Options, user: string, r: int)
    requires r in IncompleteRows(n, RowNumbers(kept))
    ensures var ps := kept + Created(IncompleteRows(n, RowNumbers(kept)), skip, id, o, user);
      FirstWhere(ps, AtRow(r)).Some? ==>
        ps[FirstWhere(ps, AtRow(r)).value] == NewProxy(ps[FirstWhere(ps, AtRow(r)).value].id, r, o, user)
  {
    KeptMisses(kept, n, r);
    FoundIsCreated(kept, IncompleteRows(n, RowNumbers(kept)), skip, id, o, user, r);
  }

  lemma FoundIsCreated(kept: seq<Proxy>, rows: seq<int>, skip: int -> bool, id: int, o: Options, user: string, r: int)
    requires forall i :: 0 <= i < |kept| ==> kept[i].state.rowNumber != r
    ensures var ps := kept + Created(rows, skip, id, o, user);
      FirstWhere(ps, AtRow(r)).Some? ==>
        ps[FirstWhere(ps, AtRow(r)).value] == NewProxy(ps[FirstWhere(ps, AtRow(r)).value].id, r, o, user)
  {
    var c := Created(rows, skip, id, o, user);
    var ps := kept + c;
    var f := FirstWhere(ps, AtRow(r));
    if f.Some? {
      CreatedShape(rows, skip, id, o, user);
      var k := f.value;
      assert AtRow(r)(ps[k]);
      assert k >= |kept|;
      assert ps[k] == c[k - |kept|];
    }
  }

  // ---------------------------------------------------------------------
  // Interpreting the rows

  /** The parser `Parser.new(proxy, sheet)` starts from. */
  function FreshParser(sheet: seq<Row>, rowNumber: int): ParserState {
    ParserState(sheet, match RubyIndex(sheet, rowNumber) case Some(r) => r case None => [], EMPTY, [])
  }

  /** `x || default` for a nil-able string; `proxy.work_type` is the
      proxy's own type or else the operation's, which is never nil. */
  function OrElse(x: Option<string>, default: string): string {
    if x.Some? then x.value else default
  }

  /** The interpretation context of the operation: its own options and
      work type, and its proxy table for row lookups. */
  function OperationContext(env: ParseContext, o: Options, ps: seq<Proxy>): ParseContext {
    env.(options := o, operationWorkType := OperationWorkType(o), proxyIdAtRow := IdAtRow(ps))
  }

  /** What every row of a loop over the sheet shares, with the
      interpretation a round runs on a proxy (its id, its record and its
      row number). */
  datatype RunContext = RunContext(env: ParseContext, operationId: int, sheet: seq<Row>, now: string, email: string,
                                   interpret: (int, ProxyState, int) -> Interpreted)

  /** The context of a loop whose rounds run `Parser.new(proxy, sheet)`
      and then `interpret_data` on the proxy's row. */
  function Context(env: ParseContext, operationId: int, sheet: seq<Row>, now: string, email: string): RunContext {
    RunContext(env, operationId, sheet, now, email,
      (id: int, s: ProxyState, r: int) => Interpret(env, id, operationId, FreshParser(sheet, s.rowNumber), s, RowAt(sheet, r)))
  }

  /** An interpretation that keeps the record's row, work id and errors. */
  ghost predicate KeepsRecords(f: (int, ProxyState, int) -> Interpreted) {
    forall id, s, r :: f(id, s, r).proxy.rowNumber == s.rowNumber && f(id, s, r).proxy.workId == s.workId &&
                       f(id, s, r).proxy.proxyErrors == s.proxyErrors
  }

  /** A round's interpretation keeps the record's row, work id and errors:
      a fresh parser has no parsing errors to add. */
  lemma ContextKeeps(env: ParseContext, operationId: int, sheet: seq<Row>, now: string, email: string)
    ensures KeepsRecords(Context(env, operationId, sheet, now, email).interpret)
  {
    var f := Context(env, operationId, sheet, now, email).interpret;
    forall id, s, r
      ensures f(id, s, r).proxy.rowNumber == s.rowNumber && f(id, s, r).proxy.workId == s.workId &&
              f(id, s, r).proxy.proxyErrors == s.proxyErrors
    {
      InterpretKeeps(env, id, operationId, FreshParser(sheet, s.rowNumber), s, RowAt(sheet, r));
    }
  }

  /** The proxy table and the job queue while a loop runs, and whether it
      ended in an exception. */
  datatype Applied = Applied(proxies: seq<Proxy>, jobs: seq<Job>, raised: bool)

  const INTERPRETED_MESSAGE: string := "interpreted at "

  /** The job `perform_later` queues for the proxy `id` after an
      interpretation: the proxy's work type, the user's email, the
      metadata and the proxy's visibility. */
  function JobOf(kind: JobKind, x: RunContext, id: int, res: Interpreted): Job {
    Job(kind, OrElse(res.proxy.workType, x.env.operationWorkType), x.email, res.parser.metadata, id, res.proxy.visibility)
  }

  /** One round of the second loop of `apply!` for row `r`, with the nil
      proxy skipped: the proxy's message is stamped, the row is
      interpreted, and a job is queued when the proxy has no errors. */
  function ApplyRow(x: RunContext, st: Applied, r: int): Applied {
    match FirstWhere(st.proxies, AtRow(r))
    case None => st
    case Some(k) =>
      var p := st.proxies[k];
      if p.state.message.None? then st.(raised := true)
      else
        var res := RoundOf(x, p, r);
        var ps := st.proxies[k := Proxy(p.id, res.proxy)];
        if res.raised then Applied(ps, st.jobs, true)
        else if res.proxy.proxyErrors == [] then
          Applied(ps, st.jobs + [JobOf(WorkJob, x, p.id, res)], false)
        else Applied(ps, st.jobs, false)
  }

  /** The second loop of `apply!` over `rows`; an exception ends it. */
  function ApplyRows(x: RunContext, st0: Applied, rows: seq<int>): Applied {
    if rows == [] then st0
    else
      var prev := ApplyRows(x, st0, rows[..|rows| - 1]);
      if prev.raised then prev else ApplyRow(x, prev, rows[|rows| - 1])
  }

  lemma ApplyRowsStep(x: RunContext, st0: Applied, rows: seq<int>, i: nat)
    requires i < |rows| && !ApplyRows(x, st0, rows[..i]).raised
    ensures ApplyRows(x, st0, rows[..i + 1]) == ApplyRow(x, ApplyRows(x, st0, rows[..i]), rows[i])
  {
    assert rows[..i + 1][..i] == rows[..i];
  }

  lemma {:induction false} ApplyRowsHalted(x: RunContext, st0: Applied, rows: seq<int>, i: nat)
    requires i <= |rows| && ApplyRows(x, st0, rows[..i]).raised
    ensures ApplyRows(x, st0, rows) == ApplyRows(x, st0, rows[..i])
    decreases |rows| - i
  {
    if i < |rows| {
      assert rows[..i + 1][..i] == rows[..i];
      ApplyRowsHalted(x, st0, rows, i + 1);
    } else {
      assert rows[..i] == rows;
    }
  }

  /** The columns of the proxy records the interpretation never changes. */
  predicate SameRecords(a: seq<Proxy>, b: seq<Proxy>) {
    |a| == |b| &&
    forall k :: 0 <= k < |a| ==>
      a[k].id == b[k].id && a[k].state.rowNumber == b[k].state.rowNumber &&
      a[k].state.workId == b[k].state.workId && a[k].state.proxyErrors == b[k].state.proxyErrors
  }

  /** The outcome of a round of `apply!` for proxy p at row r: its
      message is stamped before the row is interpreted. */
  function RoundOf(x: RunContext, p: Proxy, r: int): Interpreted
    requires p.state.message.Some?
  {
    x.interpret(p.id, p.state.(message := Some(INTERPRETED_MESSAGE + x.now + " " + p.state.message.value)), r)
  }

  lemma RoundKeeps(x: RunContext, p: Proxy, r: int)
    requires KeepsRecords(x.interpret) && p.state.message.Some?
    ensures var res := RoundOf(x, p, r);
      res.proxy.rowNumber == p.state.rowNumber && res.proxy.workId == p.state.workId &&
      res.proxy.proxyErrors == p.state.proxyErrors
  {
    var s1 := p.state.(message := Some(INTERPRETED_MESSAGE + x.now + " " + p.state.message.value));
    assert x.interpret(p.id, s1, r).proxy.rowNumber == s1.rowNumber;
  }

  /** A round keeps every record's id, row, work id and errors. */
  lemma ApplyRowRecords(x: RunContext, st: Applied, r: int)
    requires KeepsRecords(x.interpret)
    ensures SameRecords(ApplyRow(x, st, r).proxies, st.proxies)
  {
    match FirstWhere(st.proxies, AtRow(r))
    case None =>
    case Some(k) =>
      var p := st.proxies[k];
      if p.state.message.Some? {
        RoundKeeps(x, p, r);
        var ps := st.proxies[k := Proxy(p.id, RoundOf(x, p, r).proxy)];
        assert ApplyRow(x, st, r).proxies == ps;
        assert forall j :: 0 <= j < |ps| && j != k ==> ps[j] == st.proxies[j];
      }
  }

  /** A job `apply!` may queue: a work job with the operation's email for
      a proxy of `ps` at one of `rows` that has no errors. */
  predicate RowJob(email: string, ps: seq<Proxy>, rows: seq<int>, j: Job) {
    j.kind == WorkJob && j.email == email &&
    exists k :: 0 <= k < |ps| && ps[k].id == j.proxyId && ps[k].state.rowNumber in rows && ps[k].state.proxyErrors == []
  }

  /** The queue `jobs` extends `jobs0` by jobs `apply!` may queue. */
  predicate RowJobs(email: string, ps: seq<Proxy>, rows: seq<int>, jobs0: seq<Job>, jobs: seq<Job>) {
    |jobs0| <= |jobs| && jobs[..|jobs0|] == jobs0 &&
    forall i :: |jobs0| <= i < |jobs| ==> RowJob(email, ps, rows, jobs[i])
  }

  /** A round queues at most one job, a work job for the proxy found at
      the row, and only when that proxy has no errors. */
  lemma ApplyRowJobs(x: RunContext, st: Applied, r: int)
    requires KeepsRecords(x.interpret)
    ensures var st1 := ApplyRow(x, st, r);
      |st1.jobs| <= |st.jobs| + 1 && RowJobs(x.email, st.proxies, [r], st.jobs, st1.jobs)
  {
    match FirstWhere(st.proxies, AtRow(r))
    case None =>
    case Some(k) =>
      var p := st.proxies[k];
      if p.state.message.Some? {
        RoundKeeps(x, p, r);
        var st1 := ApplyRow(x, st, r);
        if |st1.jobs| > |st.jobs| {
          assert st.proxies[k].state.rowNumber in [r];
        }
      }
  }

  lemma {:induction false} ApplyRowsRecords(x: RunContext, st0: Applied, rows: seq<int>)
    requires KeepsRecords(x.interpret)
    ensures SameRecords(ApplyRows(x, st0, rows).proxies, st0.proxies)
  {
    if rows != [] {
      var init := rows[..|rows| - 1];
      ApplyRowsRecords(x, st0, init);
      var prev := ApplyRows(x, st0, init);
      if !prev.raised {
        ApplyRowRecords(x, prev, rows[|rows| - 1]);
      }
    }
  }

  /** Over the whole loop the queue only grows, and every new job is a
      work job for a proxy of one of the rows that has no errors. */
  lemma {:induction false} ApplyRowsJobs(x: RunContext, st0: Applied, rows: seq<int>)
    requires KeepsRecords(x.interpret)
    ensures RowJobs(x.email, st0.proxies, rows, st0.jobs, ApplyRows(x, st0, rows).jobs)
  {
    if rows != [] {
      var init := rows[..|rows| - 1];
      var r := rows[|rows| - 1];
      ApplyRowsJobs(x, st0, init);
      ApplyRowsRecords(x, st0, init);
      var prev := ApplyRows(x, st0, init);
      assert rows == init + [r];
      if !prev.raised {
        assert ApplyRows(x, st0, rows) == ApplyRow(x, prev, r);
        ApplyRowJobs(x, prev, r);
        JobsExtend(x.email, st0, prev.proxies, prev.jobs, ApplyRow(x, prev, r).jobs, init, r, rows);
      } else {
        assert ApplyRows(x, st0, rows) == prev;
        JobsWiden(x.email, st0.proxies, init, rows, st0.jobs, prev.jobs);
      }
    }
  }

  lemma JobsWiden(email: string, ps: seq<Proxy>, init: seq<int>, rows: seq<int>, jobs0: seq<Job>, jobs: seq<Job>)
    requires forall v :: v in init ==> v in rows
    requires RowJobs(email, ps, init, jobs0, jobs)
    ensures RowJobs(email, ps, rows, jobs0, jobs)
  {
    forall i | |jobs0| <= i < |jobs|
      ensures RowJob(email, ps, rows, jobs[i])
    {
      var k :| 0 <= k < |ps| && ps[k].id == jobs[i].proxyId && ps[k].state.rowNumber in init && ps[k].state.proxyErrors == [];
    }
  }

  lemma JobsExtend(email: string, st0: Applied, ps: seq<Proxy>, jobs1: seq<Job>, jobs2: seq<Job>, init: seq<int>, r: int,
                   rows: seq<int>)
    requires rows == init + [r]
    requires SameRecords(ps, st0.proxies)
    requires RowJobs(email, st0.proxies, init, st0.jobs, jobs1)
    requires |jobs2| <= |jobs1| + 1 && RowJobs(email, ps, [r], jobs1, jobs2)
    ensures RowJobs(email, st0.proxies, rows, st0.jobs, jobs2)
  {
    assert jobs2[..|st0.jobs|] == jobs2[..|jobs1|][..|st0.jobs|];
    forall i | |st0.jobs| <= i < |jobs2|
      ensures RowJob(email, st0.proxies, rows, jobs2[i])
    {
      if i < |jobs1| {
        assert jobs2[i] == jobs2[..|jobs1|][i];
        var k :| 0 <= k < |st0.proxies| && st0.proxies[k].id == jobs1[i].proxyId &&
                 st0.proxies[k].state.rowNumber in init && st0.proxies[k].state.proxyErrors == [];
        assert st0.proxies[k].state.rowNumber in rows;
      } else {
        var k :| 0 <= k < |ps| && ps[k].id == jobs2[i].proxyId &&
                 ps[k].state.rowNumber in [r] && ps[k].state.proxyErrors == [];
        assert st0.proxies[k].state.rowNumber in rows;
      }
    }
  }

  // ---------------------------------------------------------------------
  // apply! and apply_update! as state changes

  /** The columns of the operation record the core reads and writes, with
      its proxy table and the jobs it has queued. */
  datatype OperationState = OperationState(stage: string, status: string, message: Option<string>,
                                           proxies: seq<Proxy>, nextProxyId: int, metadata: Option<seq<Row>>,
                                           jobs: seq<Job>)

  /** `final_spreadsheet`: the loaded sheet, else the master branch's. */
  function SheetOf(s: OperationState, master: seq<Row>): seq<Row> {
    if s.metadata.Some? then s.metadata.value else master
  }

  function SkipOf(schema: Schema, sheet: seq<Row>, typeCellAt: int -> Option<string>): int -> bool {
    r => Skipped(schema, sheet, typeCellAt, r)
  }

  /** `incomplete_row_numbers` of `apply!`. */
  function PendingRows(s: OperationState, master: seq<Row>): seq<int> {
    IncompleteRows(|SheetOf(s, master)|, RowNumbers(KeptProxies(s.proxies)))
  }

  /** The first part of `apply!`: the stage is "running", the sheet is
      loaded, unfinished proxies are destroyed and a "new" proxy is made
      for each pending row that is neither blank nor a file set. */
  function Prepared(s: OperationState, o: Options, master: seq<Row>, schema: Schema, typeCellAt: int -> Option<string>,
                    user: string): OperationState {
    var sheet := SheetOf(s, master);
    var created := Created(PendingRows(s, master), SkipOf(schema, sheet, typeCellAt), s.nextProxyId, o, user);
    s.(stage := "running", status := "OK", message := Some(INGEST_MESSAGE + user), metadata := Some(sheet),
       proxies := KeptProxies(s.proxies) + created, nextProxyId := s.nextProxyId + |created|)
  }

  /** The table after the creation loop: the kept proxies, then "new"
      records for rows that were not skipped. */
  lemma ProxyTable(kept: seq<Proxy>, rows: seq<int>, skip: int -> bool, id: int, o: Options, user: string)
    ensures var ps := kept + Created(rows, skip, id, o, user);
      forall i :: 0 <= i < |ps| ==>
        (i < |kept| && ps[i] == kept[i]) ||
        (ps[i].state.status == "new" && ps[i].state.rowNumber in rows && !skip(ps[i].state.rowNumber))
  {
    var c := Created(rows, skip, id, o, user);
    CreatedSpec(rows, skip, id, o, user);
    forall i | |kept| <= i < |kept| + |c|
      ensures (kept + c)[i] == c[i - |kept|]
    {
    }
  }

  /** What the first part of `apply!` promises of the proxy table: the
      finished proxies (and only they) survive, and every other proxy is a
      "new" record of a pending row that is neither blank nor a file set. */
  lemma PreparedTable(s: OperationState, o: Options, master: seq<Row>, schema: Schema, typeCellAt: int -> Option<string>,
                      user: string)
    ensures var p := Prepared(s, o, master, schema, typeCellAt, user);
      p.stage == "running" && p.metadata == Some(SheetOf(s, master)) &&
      (forall q :: q in s.proxies && CompleteWithWork(q) ==> q in p.proxies) &&
      (forall i :: 0 <= i < |p.proxies| ==>
         (CompleteWithWork(p.proxies[i]) && p.proxies[i] in s.proxies) ||
         (p.proxies[i].state.status == "new" && p.proxies[i].state.rowNumber in PendingRows(s, master) &&
          SkipOf(schema, SheetOf(s, master), typeCellAt)(p.proxies[i].state.rowNumber) == false))
  {
    var skip := SkipOf(schema, SheetOf(s, master), typeCellAt);
    var kept := KeptProxies(s.proxies);
    var rows := PendingRows(s, master);
    var ps := Prepared(s, o, master, schema, typeCellAt, user).proxies;
    assert ps == kept + Created(rows, skip, s.nextProxyId, o, user);
    ProxyTable(kept, rows, skip, s.nextProxyId, o, user);
    forall i | 0 <= i < |ps|
      ensures (CompleteWithWork(ps[i]) && ps[i] in s.proxies) ||
              (ps[i].state.status == "new" && ps[i].state.rowNumber in rows && skip(ps[i].state.rowNumber) == false)
    {
      if i < |kept| {
        assert ps[i] == kept[i];
      }
    }
    forall q | q in s.proxies && CompleteWithWork(q)
      ensures q in ps
    {
      var i :| 0 <= i < |s.proxies| && s.proxies[i] == q;
    }
  }

  /** What the first part of `apply!` promises of the rows: the pending
      rows are the sheet's rows no finished proxy stands for, and such a
      row is given a proxy exactly when it is neither blank nor a file set. */
  lemma PreparedRows(s: OperationState, o: Options, master: seq<Row>, schema: Schema, typeCellAt: int -> Option<string>,
                     user: string)
    ensures var p := Prepared(s, o, master, schema, typeCellAt, user);
      (forall r :: r in PendingRows(s, master) <==>
         0 <= r < |SheetOf(s, master)| && r !in RowNumbers(KeptProxies(s.proxies))) &&
      (forall r :: r in PendingRows(s, master) ==>
         (FirstWhere(p.proxies, AtRow(r)).Some? <==> !SkipOf(schema, SheetOf(s, master), typeCellAt)(r)))
  {
    var skip := SkipOf(schema, SheetOf(s, master), typeCellAt);
    var kept := KeptProxies(s.proxies);
    var ps := Prepared(s, o, master, schema, typeCellAt, user).proxies;
    assert ps == kept + Created(PendingRows(s, master), skip, s.nextProxyId, o, user);
    forall r | r in PendingRows(s, master)
      ensures FirstWhere(ps, AtRow(r)).Some? <==> !skip(r)
    {
      IncompleteRowProxy(kept, |SheetOf(s, master)|, skip, s.nextProxyId, o, user, r);
    }
  }

  /** A pending row's proxy in the prepared table is never a finished one:
      finished proxies stand for rows that are not pending. */
  lemma PendingProxyIsNew(s: OperationState, o: Options, master: seq<Row>, schema: Schema,
                          typeCellAt: int -> Option<string>, user: string, k: int)
    requires var p := Prepared(s, o, master, schema, typeCellAt, user);
      0 <= k < |p.proxies| && p.proxies[k].state.rowNumber in PendingRows(s, master)
    ensures Prepared(s, o, master, schema, typeCellAt, user).proxies[k].state.status == "new"
  {
    var p := Prepared(s, o, master, schema, typeCellAt, user);
    var q := p.proxies[k];
    var kept := KeptProxies(s.proxies);
    PreparedTable(s, o, master, schema, typeCellAt, user);
    PreparedRows(s, o, master, schema, typeCellAt, user);
  }

  /** `apply!` never queues a job for a proxy that was already finished:
      every job it adds is a work job for a "new" proxy of a pending row
      that has no errors, and the jobs queued before are kept. */
  lemma ApplyQueuesOnlyNew(s: OperationState, o: Options, master: seq<Row>, schema: Schema,
                           typeCellAt: int -> Option<string>, user: string, x: RunContext)
    requires KeepsRecords(x.interpret)
    ensures var p := Prepared(s, o, master, schema, typeCellAt, user);
      var a := ApplyRows(x, Applied(p.proxies, p.jobs, false), PendingRows(s, master));
      |s.jobs| <= |a.jobs| && a.jobs[..|s.jobs|] == s.jobs &&
      forall i :: |s.jobs| <= i < |a.jobs| ==>
        a.jobs[i].kind == WorkJob &&
        exists k :: 0 <= k < |p.proxies| && p.proxies[k].id == a.jobs[i].proxyId &&
                    p.proxies[k].state.status == "new" && p.proxies[k].state.rowNumber in PendingRows(s, master) &&
                    p.proxies[k].state.proxyErrors == []
  {
    var p := Prepared(s, o, master, schema, typeCellAt, user);
    var rows := PendingRows(s, master);
    var a := ApplyRows(x, Applied(p.proxies, p.jobs, false), rows);
    ApplyRowsJobs(x, Applied(p.proxies, p.jobs, false), rows);
    forall i | |s.jobs| <= i < |a.jobs|
      ensures exists k :: 0 <= k < |p.proxies| && p.proxies[k].id == a.jobs[i].proxyId &&
                          p.proxies[k].state.status == "new" && p.proxies[k].state.rowNumber in rows &&
                          p.proxies[k].state.proxyErrors == []
    {
      var k :| 0 <= k < |p.proxies| && p.proxies[k].id == a.jobs[i].proxyId &&
               p.proxies[k].state.rowNumber in rows && p.proxies[k].state.proxyErrors == [];
      PendingProxyIsNew(s, o, master, schema, typeCellAt, user, k);
    }
  }

  /** Why `apply!`, as written, stops: in the creation loop,
      `is_file_set?` raises on the first pending row that is not blank;
      in the second loop, `find_by` gives nil for a row that got no proxy,
      and otherwise `Parser.new` is given three arguments where it takes at
      most two. */
  datatype ApplyFailure = FileSetCheck(row: int) | NilProxy(row: int) | NilMessage(row: int) | ParserArity(row: int)

  /** A row of the sheet that is not blank. */
  function Filled(sheet: seq<Row>): int -> bool {
    r => !RowBlank(RowAt(sheet, r))
  }

  /** The first part of `apply!` as written: the stage and message are set,
      the sheet is loaded and the unfinished proxies destroyed; the
      creation loop passes over blank rows and raises at the first other
      pending row, before creating any proxy. */
  function PreparedAsWritten(s: OperationState, master: seq<Row>, user: string): (OperationState, Option<ApplyFailure>) {
    var sheet := SheetOf(s, master);
    var rows := PendingRows(s, master);
    var p := s.(stage := "running", status := "OK", message := Some(INGEST_MESSAGE + user), metadata := Some(sheet),
                proxies := KeptProxies(s.proxies));
    match FirstWhere(rows, Filled(sheet))
      case Some(k) => (p, Some(FileSetCheck(rows[k])))
      case None => (p, None)
  }

  /** `apply!` as written, up to the exception that ends it. */
  function ApplyAsWritten(s: OperationState, master: seq<Row>, user: string, now: string)
    : (OperationState, Option<ApplyFailure>)
  {
    var p := PreparedAsWritten(s, master, user);
    if p.1.Some? then p else FirstRoundAsWritten(p.0, PendingRows(s, master), now)
  }

  /** The second loop of `apply!` as written: the first pending row's
      proxy is looked up and, when found, its message stamped before the
      parser's constructor raises. */
  function FirstRoundAsWritten(p: OperationState, rows: seq<int>, now: string): (OperationState, Option<ApplyFailure>) {
    if rows == [] then (p, None)
    else match FirstWhere(p.proxies, AtRow(rows[0]))
      case None => (p, Some(NilProxy(rows[0])))
      case Some(k) =>
        var q := p.proxies[k];
        if q.state.message.None? then (p, Some(NilMessage(rows[0])))
        else
          var stamped := q.state.(message := Some(INTERPRETED_MESSAGE + now + " " + q.state.message.value));
          (p.(proxies := p.proxies[k := Proxy(q.id, stamped)]), Some(ParserArity(rows[0])))
  }

  /** The outcome of the first round as written on any table where a
      pending row is found exactly when it was not skipped, with a message. */
  lemma FirstRoundFails(p: OperationState, rows: seq<int>, skip: int -> bool, now: string)
    requires forall r :: r in rows ==> (FirstWhere(p.proxies, AtRow(r)).Some? <==> !skip(r))
    requires forall r :: r in rows && FirstWhere(p.proxies, AtRow(r)).Some? ==>
               p.proxies[FirstWhere(p.proxies, AtRow(r)).value].state.message.Some?
    ensures var r := FirstRoundAsWritten(p, rows, now);
      (r.1.None? <==> rows == []) && r.0.jobs == p.jobs &&
      (rows != [] && skip(rows[0]) ==> r.1 == Some(NilProxy(rows[0]))) &&
      (rows != [] && !skip(rows[0]) ==> r.1 == Some(ParserArity(rows[0])))
  {
    if rows != [] {
      assert rows[0] in rows;
    }
  }

  /** Were the creation loop corrected, the second loop as written would
      still raise at the first pending row: on a blank or file-set row
      because no proxy was made for it, on any other because of the
      constructor's arity. */
  lemma SecondLoopAsWrittenFails(s: OperationState, o: Options, master: seq<Row>, schema: Schema,
                            typeCellAt: int -> Option<string>, user: string, now: string)
    ensures var rows := PendingRows(s, master);
      var r := FirstRoundAsWritten(Prepared(s, o, master, schema, typeCellAt, user), rows, now);
      (r.1.None? <==> rows == []) &&
      r.0.jobs == s.jobs &&
      (rows != [] && Skipped(schema, SheetOf(s, master), typeCellAt, rows[0]) ==> r.1 == Some(NilProxy(rows[0]))) &&
      (rows != [] && !Skipped(schema, SheetOf(s, master), typeCellAt, rows[0]) ==> r.1 == Some(ParserArity(rows[0])))
  {
    var p := Prepared(s, o, master, schema, typeCellAt, user);
    var rows := PendingRows(s, master);
    var sheet := SheetOf(s, master);
    var skip := SkipOf(schema, sheet, typeCellAt);
    var kept := KeptProxies(s.proxies);
    assert p.proxies == kept + Created(rows, skip, s.nextProxyId, o, user);
    PreparedRows(s, o, master, schema, typeCellAt, user);
    forall r | r in rows && FirstWhere(p.proxies, AtRow(r)).Some?
      ensures p.proxies[FirstWhere(p.proxies, AtRow(r)).value].state.message.Some?
    {
      IncompleteRowIsNew(kept, |sheet|, skip, s.nextProxyId, o, user, r);
    }
    FirstRoundFails(p, rows, skip, now);
  }

  /** As written, `apply!` raises whenever some row is pending, and it
      neither creates a proxy nor queues a job: at the first pending row
      that is not blank, `is_file_set?` raises on the table it is given;
      when every pending row is blank, the second loop finds no proxy for
      the first. The finished proxies alone remain. */
  lemma ApplyAsWrittenFails(s: OperationState, master: seq<Row>, user: string, now: string)
    ensures var rows := PendingRows(s, master);
      var sheet := SheetOf(s, master);
      var r := ApplyAsWritten(s, master, user, now);
      (r.1.None? <==> rows == []) &&
      r.0.jobs == s.jobs && r.0.proxies == KeptProxies(s.proxies) && r.0.nextProxyId == s.nextProxyId &&
      (forall q :: r.1 == Some(FileSetCheck(q)) ==>
         q in rows && FileSetAsWritten(sheet, q).None? &&
         forall k :: 0 <= k < |rows| && rows[k] < q ==> RowBlank(RowAt(sheet, rows[k]))) &&
      ((exists k :: 0 <= k < |rows| && !RowBlank(RowAt(sheet, rows[k]))) ==> r.1.Some? && r.1.value.FileSetCheck?) &&
      (rows != [] && (forall k :: 0 <= k < |rows| ==> RowBlank(RowAt(sheet, rows[k]))) ==>
         r.1 == Some(NilProxy(rows[0])))
  {
    var rows := PendingRows(s, master);
    var sheet := SheetOf(s, master);
    match FirstWhere(rows, Filled(sheet))
    case Some(k) =>
      FirstFilledRow(sheet, rows, k);
    case None =>
      if rows != [] {
        PendingRowUnkept(s, master, rows[0]);
      }
  }

  /** The first pending row that is not blank lies in the sheet, where
      `is_file_set?` as written raises, and every pending row before it
      is blank. */
  lemma FirstFilledRow(sheet: seq<Row>, rows: seq<int>, k: nat)
    requires forall i :: 0 <= i < |rows| ==> 0 <= rows[i] < |sheet|
    requires forall i, j :: 0 <= i < j < |rows| ==> rows[i] < rows[j]
    requires FirstWhere(rows, Filled(sheet)) == Some(k)
    ensures FileSetAsWritten(sheet, rows[k]).None?
    ensures forall j :: 0 <= j < |rows| && rows[j] < rows[k] ==> RowBlank(RowAt(sheet, rows[j]))
  {
    var q := rows[k];
    assert Filled(sheet)(q);
    FilledRowRaises(sheet, q);
    FirstWhereBefore(rows, Filled(sheet), k);
    forall j | 0 <= j < |rows| && rows[j] < q
      ensures RowBlank(RowAt(sheet, rows[j]))
    {
      assert !Filled(sheet)(rows[j]);
    }
  }

  /** In an increasing list, no element smaller than the first one that
      satisfies `p` satisfies it. */
  lemma FirstWhereBefore(rows: seq<int>, p: int -> bool, k: nat)
    requires forall i, j :: 0 <= i < j < |rows| ==> rows[i] < rows[j]
    requires FirstWhere(rows, p) == Some(k)
    ensures forall j :: 0 <= j < |rows| && rows[j] < rows[k] ==> !p(rows[j])
  {
    forall j | 0 <= j < |rows| && rows[j] < rows[k]
      ensures !p(rows[j])
    {
      if k <= j {
        assert false;
      }
    }
  }

  /** A row of the sheet that is not blank has cells, so `is_file_set?`
      as written reaches `metadata.keys` on it. */
  lemma FilledRowRaises(sheet: seq<Row>, r: int)
    requires 0 <= r < |sheet|
    requires !RowBlank(RowAt(sheet, r))
    ensures FileSetAsWritten(sheet, r).None?
  {
    assert RowAt(sheet, r) == sheet[r];
    assert sheet[r] != [];
    assert RubyIndex(sheet, r) == Some(sheet[r]);
  }

  /** No finished proxy stands for a pending row. */
  lemma PendingRowUnkept(s: OperationState, master: seq<Row>, r: int)
    requires r in PendingRows(s, master)
    ensures FirstWhere(KeptProxies(s.proxies), AtRow(r)).None?
  {
    var kept := KeptProxies(s.proxies);
    forall j | 0 <= j < |kept|
      ensures kept[j].state.rowNumber != r
    {
      assert RowNumbers(kept)[j] == kept[j].state.rowNumber;
    }
  }

  /** The creation loop of `apply!`: after `table`, a "new" proxy for each
      row that is neither blank nor a file set, with fresh consecutive ids. */
  method CreateProxies(table0: seq<Proxy>, rows: seq<int>, schema: Schema, sheet: seq<Row>,
                       typeCellAt: int -> Option<string>, id: int, o: Options, user: string)
    returns (table: seq<Proxy>, nid: int)
    ensures table == table0 + Created(rows, SkipOf(schema, sheet, typeCellAt), id, o, user)
    ensures nid == id + (|table| - |table0|)
  {
    ghost var skip := SkipOf(schema, sheet, typeCellAt);
    table, nid := table0, id;
    var i := 0;
    while i < |rows|
      invariant 0 <= i <= |rows|
      invariant table + Created(rows[i..], skip, nid, o, user) == table0 + Created(rows, skip, id, o, user)
      invariant nid == id + (|table| - |table0|)
    {
      var r := rows[i];
      CreatedStep(rows, i, skip, nid, o, user);
      var skipRow := SkipRow(schema, sheet, typeCellAt, r);
      if !skipRow {
        table := table + [NewProxy(nid, r, o, user)];
        nid := nid + 1;
      }
      i := i + 1;
    }
    assert rows[i..] == [];
  }

  /** The pending rows of `apply!` and the table and next free id after
      its creation loop. */
  method PrepareTable(s: OperationState, o: Options, master: seq<Row>, schema: Schema, typeCellAt: int -> Option<string>,
                      user: string) returns (rows: seq<int>, table: seq<Proxy>, nid: int)
    ensures rows == PendingRows(s, master)
    ensures var p := Prepared(s, o, master, schema, typeCellAt, user);
      table == p.proxies && nid == p.nextProxyId
  {
    var sheet := if s.metadata.Some? then s.metadata.value else master;
    var kept := KeptProxies(s.proxies);
    rows := IncompleteRows(|sheet|, RowNumbers(kept));
    table, nid := CreateProxies(kept, rows, schema, sheet, typeCellAt, s.nextProxyId, o, user);
  }

  /** The two `next` tests of the creation loop; the file-set test runs
      only on a row that is not blank. */
  method SkipRow(schema: Schema, sheet: seq<Row>, typeCellAt: int -> Option<string>, r: int) returns (b: bool)
    ensures b == SkipOf(schema, sheet, typeCellAt)(r)
  {
    b := RowBlank(RowAt(sheet, r));
    if !b {
      b := IsFileSet(schema, sheet, r, typeCellAt(r));
    }
  }

  /** The second loop of `apply!` over the pending rows; an exception ends
      it. */
  method ApplyPending(x: RunContext, table0: seq<Proxy>, jobs0: seq<Job>, rows: seq<int>)
    returns (table: seq<Proxy>, queued: seq<Job>, raised: bool)
    ensures Applied(table, queued, raised) == ApplyRows(x, Applied(table0, jobs0, false), rows)
  {
    ghost var st0 := Applied(table0, jobs0, false);
    table, queued, raised := table0, jobs0, false;
    var i := 0;
    while i < |rows| && !raised
      invariant 0 <= i <= |rows|
      invariant Applied(table, queued, raised) == ApplyRows(x, st0, rows[..i])
    {
      ApplyRowsStep(x, st0, rows, i);
      var r := rows[i];
      var f := FirstWhere(table, AtRow(r));
      if f.Some? {
        var q := table[f.value];
        if q.state.message.None? {
          raised := true;
        } else {
          var res := RoundOf(x, q, r);
          table := table[f.value := Proxy(q.id, res.proxy)];
          if res.raised {
            raised := true;
          } else if res.proxy.proxyErrors == [] {
            queued := queued + [JobOf(WorkJob, x, q.id, res)];
          }
        }
      }
      i := i + 1;
    }
    if raised {
      ApplyRowsHalted(x, st0, rows, i);
    } else {
      assert rows[..i] == rows;
    }
  }

  // ---------------------------------------------------------------------
  // apply_update!

  const WORK_ID_HEADERS: seq<string> := ["id", "workid", "recordid"]

  /** `gsub(/-_\s/, '')` as written: without brackets the pattern is the
      three-character sequence dash, underscore, whitespace, and only that
      sequence is removed. */
  function DropDashUnderscoreSpace(s: string): string
    decreases |s|
  {
    if |s| < 3 then s
    else if s[0] == '-' && s[1] == '_' && IsSpace(s[2]) then DropDashUnderscoreSpace(s[3..])
    else [s[0]] + DropDashUnderscoreSpace(s[1..])
  }

  /** The work-id column test of `apply_update!` as written. */
  predicate WorkIdHeaderAsWritten(field: string) {
    DropDashUnderscoreSpace(Lower(field)) in WORK_ID_HEADERS
  }

  /** The work-id column test as intended: the header, lower-cased and with
      every `_`, `-` and whitespace removed, names the work id. */
  predicate WorkIdHeader(field: string) {
    RemoveFieldSeps(Lower(field)) in WORK_ID_HEADERS
  }

  /** As written, the header "Work ID" is not recognised, although the
      corrected test accepts it. */
  lemma WorkIdHeaderMissedSpaced()
    ensures !WorkIdHeaderAsWritten("Work ID") && WorkIdHeader("Work ID")
  {
    LowerWorkId("Work ID", "work" + " " + "id");
    MissedSeparated("Work ID", ' ');
  }

  /** As written, the header "work_id" is not recognised either. */
  lemma WorkIdHeaderMissedUnderscored()
    ensures !WorkIdHeaderAsWritten("work_id") && WorkIdHeader("work_id")
  {
    LowerWorkId("work_id", "work" + "_" + "id");
    MissedSeparated("work_id", '_');
  }

  lemma LowerWorkId(h: string, l: string)
    requires |h| == |l| && forall i :: 0 <= i < |h| ==> LowerChar(h[i]) == l[i]
    ensures Lower(h) == l
  {
  }

  /** A header that lower-cases to "work", one separator other than a dash,
      and "id" is a work-id column only for the corrected test. */
  lemma MissedSeparated(h: string, sep: char)
    requires IsFieldSep(sep) && sep != '-' && Lower(h) == "work" + [sep] + "id"
    ensures !WorkIdHeaderAsWritten(h) && WorkIdHeader(h)
  {
    SeparatedKept(sep);
    SeparatedRemoved(sep);
    assert |Lower(h)| == 7;
  }

  lemma SeparatedKept(sep: char)
    requires sep != '-'
    ensures DropDashUnderscoreSpace("work" + [sep] + "id") == "work" + [sep] + "id"
  {
    var l := "work" + [sep] + "id";
    assert forall i :: 0 <= i < |l| ==> l[i] != '-';
    AsWrittenKeeps(l);
  }

  lemma SeparatedRemoved(sep: char)
    requires IsFieldSep(sep)
    ensures RemoveFieldSeps("work" + [sep] + "id") == "workid"
  {
    assert "work" + [sep] + "id" == "work" + ([sep] + "id");
    RemoveSepsConcat("work", [sep] + "id");
    RemoveSepsConcat([sep], "id");
    assert RemoveFieldSeps([sep]) == [];
    assert RemoveFieldSeps("id") == "id";
    assert RemoveFieldSeps("work") == "work";
    assert "work" + "id" == "workid";
  }

  /** A string without a dash directly followed by an underscore is left
      unchanged by the as-written substitution. */
  lemma {:induction false} AsWrittenKeeps(s: string)
    requires forall i :: 0 <= i < |s| - 1 ==> !(s[i] == '-' && s[i + 1] == '_')
    ensures DropDashUnderscoreSpace(s) == s
    decreases |s|
  {
    if |s| >= 3 {
      AsWrittenKeeps(s[1..]);
    }
  }

  lemma LowerConcat(a: string, b: string)
    ensures Lower(a + b) == Lower(a) + Lower(b)
  {
  }

  /** The corrected test ignores a separator anywhere in the header. */
  lemma WorkIdHeaderIgnoresSeparator(a: string, c: char, b: string)
    requires IsFieldSep(c)
    ensures WorkIdHeader(a + [c] + b) <==> WorkIdHeader(a + b)
  {
    assert a + [c] + b == a + ([c] + b);
    LowerConcat(a, [c] + b);
    LowerConcat([c], b);
    LowerConcat(a, b);
    var lc := Lower([c]);
    assert lc == [LowerChar(c)];
    assert IsFieldSep(lc[0]);
    RemoveSepsConcat(Lower(a), lc + Lower(b));
    RemoveSepsConcat(lc, Lower(b));
    RemoveSepsConcat(Lower(a), Lower(b));
    assert RemoveFieldSeps(lc) == RemoveFieldSeps(lc[1..]);
    assert lc[1..] == [];
  }

  /** The value of the last column of `row` whose header passes `isKey`:
      each such column overwrites the earlier ones. */
  function LastValue(row: Row, isKey: string -> bool): Option<string> {
    if row == [] then None
    else if isKey(row[|row| - 1].0) then Some(row[|row| - 1].1)
    else LastValue(row[..|row| - 1], isKey)
  }

  lemma {:induction false} LastValueSpec(row: Row, isKey: string -> bool)
    ensures LastValue(row, isKey).None? <==> forall i :: 0 <= i < |row| ==> !isKey(row[i].0)
    ensures LastValue(row, isKey).Some? ==>
      exists i :: 0 <= i < |row| && isKey(row[i].0) && LastValue(row, isKey).value == row[i].1 &&
                  forall j :: i < j < |row| ==> !isKey(row[j].0)
  {
    if row != [] {
      var init := row[..|row| - 1];
      LastValueSpec(init, isKey);
      assert forall i :: 0 <= i < |init| ==> init[i] == row[i];
      if !isKey(row[|row| - 1].0) && LastValue(init, isKey).Some? {
        var i :| 0 <= i < |init| && isKey(init[i].0) && LastValue(init, isKey).value == init[i].1 &&
                 forall j :: i < j < |init| ==> !isKey(init[j].0);
        assert isKey(row[i].0) && LastValue(row, isKey).value == row[i].1;
      }
    }
  }

  /** At most one column is the last with a given kind of header. */
  lemma LastKeyUnique(row: Row, isKey: string -> bool, i: int, i': int)
    requires 0 <= i < |row| && isKey(row[i].0) && forall j :: i < j < |row| ==> !isKey(row[j].0)
    requires 0 <= i' < |row| && isKey(row[i'].0) && forall j :: i' < j < |row| ==> !isKey(row[j].0)
    ensures i == i'
  {
  }

  /** The work id of a row: the value of its last work-id column, unless
      that cell is empty, which the CSV reader gives as nil. */
  function WorkIdOf(row: Row): Option<string> {
    match LastValue(row, WorkIdHeader)
    case Some(w) => if w == "" then None else Some(w)
    case None => None
  }

  /** A row has a work id exactly when some column is a work-id column and
      the last such cell is not empty, and then it is that cell's value. */
  lemma WorkIdOfSpec(row: Row)
    ensures WorkIdOf(row).None? <==>
      (forall i :: 0 <= i < |row| ==> !WorkIdHeader(row[i].0)) ||
      (exists i :: 0 <= i < |row| && WorkIdHeader(row[i].0) && row[i].1 == "" &&
                   forall j :: i < j < |row| ==> !WorkIdHeader(row[j].0))
    ensures WorkIdOf(row).Some? ==>
      WorkIdOf(row).value != "" &&
      exists i :: 0 <= i < |row| && WorkIdHeader(row[i].0) && WorkIdOf(row).value == row[i].1 &&
                  forall j :: i < j < |row| ==> !WorkIdHeader(row[j].0)
  {
    LastValueSpec(row, WorkIdHeader);
    if LastValue(row, WorkIdHeader).Some? {
      var i :| 0 <= i < |row| && WorkIdHeader(row[i].0) && LastValue(row, WorkIdHeader).value == row[i].1 &&
               forall j :: i < j < |row| ==> !WorkIdHeader(row[j].0);
      forall i' | 0 <= i' < |row| && WorkIdHeader(row[i'].0) && forall j :: i' < j < |row| ==> !WorkIdHeader(row[j].0)
        ensures i' == i
      {
        LastKeyUnique(row, WorkIdHeader, i, i');
      }
    }
  }

  const UPDATE_MESSAGE: string := "update initiated by "
  const QUEUED_MESSAGE: string := "created during update application, which was initiated by "

  /** The `work_proxies.find_by(work_id: ...)` test. */
  function HasWork(w: string): Proxy -> bool {
    (p: Proxy) => p.state.workId == Some(w)
  }

  /** The record `work_proxies.create(status: "queued", ...)` makes: no work
      id, type or visibility. */
  function QueuedProxy(id: int, r: int, user: string): Proxy {
    Proxy(id, ProxyState(r, "queued", Some(QUEUED_MESSAGE + user), None, None, None, None, None, None, None, []))
  }

  /** `abandoned_proxies.delete(proxy)` (line 190) under the snapshot
      reading, where `abandoned_proxies` is a list of ids taken before the
      loop: every occurrence of `id` is removed. As written the receiver is
      the association itself (`UpdateRowAsWritten`). */
  function Without(ids: seq<int>, id: int): (r: seq<int>)
    ensures forall j :: j in r <==> j in ids && j != id
  {
    if ids == [] then []
    else Without(ids[..|ids| - 1], id) + (if ids[|ids| - 1] == id then [] else [ids[|ids| - 1]])
  }

  function Ids(ps: seq<Proxy>): (r: seq<int>)
    ensures |r| == |ps| && forall i :: 0 <= i < |ps| ==> r[i] == ps[i].id
  {
    seq(|ps|, i requires 0 <= i < |ps| => ps[i].id)
  }

  /** The proxy table, the next free id and the ids of the draft proxies
      no row has matched yet, while the first loop of `apply_update!` runs. */
  datatype Updating = Updating(proxies: seq<Proxy>, nextId: int, abandoned: seq<int>, raised: bool)

  /** The work id of each row of the sheet. */
  function WorkIdsOf(sheet: seq<Row>): int -> Option<string> {
    r => WorkIdOf(RowAt(sheet, r))
  }

  /** One row of the first loop, under the snapshot reading of
      `abandoned_proxies`, given the work id of each row: a row without a
      work id raises (`BulkOps::Error.new(:no_work_id_field)` passes the
      type positionally to a keyword-only `initialize`, error.rb:7, so it
      raises ArgumentError before `<<` runs); a row whose work id some
      proxy carries sets that proxy "updating" at this row and no longer
      abandoned; any other row gets a new "queued" proxy. */
  function UpdateRow(workIdAt: int -> Option<string>, user: string, st: Updating, r: int): Updating {
    var wid := workIdAt(r);
    if wid.None? then st.(raised := true)
    else match FirstWhere(st.proxies, HasWork(wid.value))
      case Some(k) =>
        var p := st.proxies[k];
        st.(proxies := st.proxies[k := Proxy(p.id, p.state.(status := "updating", rowNumber := r,
                                                              message := Some(UPDATE_MESSAGE + user)))],
            abandoned := Without(st.abandoned, p.id))
      case None => st.(proxies := st.proxies + [QueuedProxy(st.nextId, r, user)], nextId := st.nextId + 1)
  }

  /** The first loop of `apply_update!` over rows 0..n-1; an exception ends it. */
  function UpdateRows(workIdAt: int -> Option<string>, user: string, st0: Updating, n: nat): Updating {
    RowLoop(UpdateStep(workIdAt, user), st0, n)
  }

  function UpdateStep(workIdAt: int -> Option<string>, user: string): (Updating, int) -> Updating {
    (st: Updating, r: int) => UpdateRow(workIdAt, user, st, r)
  }

  /** A loop that runs `step` on rows 0..n-1; an exception ends it. */
  function RowLoop(step: (Updating, int) -> Updating, st0: Updating, n: nat): Updating {
    if n == 0 then st0
    else
      var prev := RowLoop(step, st0, n - 1);
      if prev.raised then prev else step(prev, n - 1)
  }

  /** A property of the state after r rows that every row preserves holds
      after the whole loop. */
  lemma {:induction false} RowLoopKeeps(step: (Updating, int) -> Updating, inv: (nat, Updating) -> bool, st0: Updating,
                                        n: nat)
    requires inv(0, st0)
    requires forall r: nat, st :: inv(r, st) ==> inv(r + 1, if st.raised then st else step(st, r))
    ensures inv(n, RowLoop(step, st0, n))
  {
    if n > 0 {
      RowLoopKeeps(step, inv, st0, n - 1);
    }
  }

  lemma {:induction false} RowLoopHalted(step: (Updating, int) -> Updating, st0: Updating, r: nat, n: nat)
    requires r <= n && (r < n ==> RowLoop(step, st0, r).raised)
    ensures RowLoop(step, st0, n) == RowLoop(step, st0, r)
    decreases n - r
  {
    if r < n {
      RowLoopHalted(step, st0, r, n - 1);
    }
  }

  /** The first loop raises exactly when some row has no work-id column. */
  lemma {:induction false} UpdateRowsRaises(workIdAt: int -> Option<string>, user: string, st0: Updating, n: nat)
    requires !st0.raised
    ensures UpdateRows(workIdAt, user, st0, n).raised <==> exists r :: 0 <= r < n && workIdAt(r).None?
  {
    if n > 0 {
      UpdateRowsRaises(workIdAt, user, st0, n - 1);
      var prev := UpdateRows(workIdAt, user, st0, n - 1);
      var step := UpdateStep(workIdAt, user);
      assert UpdateRows(workIdAt, user, st0, n) == if prev.raised then prev else step(prev, n - 1);
      if !prev.raised {
        assert step(prev, n - 1).raised <==> workIdAt(n - 1).None?;
        if workIdAt(n - 1).None? {
          assert 0 <= n - 1 < n;
        }
      }
    }
  }

  /** What the first loop does to the draft proxies: they keep their
      places, ids and work ids, and each is untouched or set "updating" at
      a row below `n`. */
  predicate DraftsKept(ps0: seq<Proxy>, n: int, u: Updating) {
    |ps0| <= |u.proxies| &&
    forall k :: 0 <= k < |ps0| ==>
      u.proxies[k].id == ps0[k].id && u.proxies[k].state.workId == ps0[k].state.workId &&
      (u.proxies[k] == ps0[k] || (u.proxies[k].state.status == "updating" && 0 <= u.proxies[k].state.rowNumber < n))
  }

  /** The proxies after the drafts are fresh "queued" records without a
      work id for rows below `n`, numbered from the next free id. */
  predicate QueuedAdded(ps0: seq<Proxy>, id0: int, n: int, user: string, u: Updating) {
    |ps0| <= |u.proxies| && u.nextId == id0 + (|u.proxies| - |ps0|) &&
    forall k :: |ps0| <= k < |u.proxies| ==>
      u.proxies[k] == QueuedProxy(id0 + (k - |ps0|), u.proxies[k].state.rowNumber, user) &&
      0 <= u.proxies[k].state.rowNumber < n
  }

  /** Ids only leave the abandoned list, and only when their proxy was
      matched and set "updating". */
  predicate AbandonedShrinks(ab0: seq<int>, u: Updating) {
    (forall j :: j in u.abandoned ==> j in ab0) &&
    (forall j :: j in ab0 && j !in u.abandoned ==>
       exists k :: 0 <= k < |u.proxies| && u.proxies[k].id == j && u.proxies[k].state.status == "updating")
  }

  lemma UpdateRowDrafts(workIdAt: int -> Option<string>, user: string, ps0: seq<Proxy>, n: nat, st: Updating)
    requires DraftsKept(ps0, n, st)
    ensures DraftsKept(ps0, n + 1, if st.raised then st else UpdateRow(workIdAt, user, st, n))
  {
  }

  lemma UpdateRowQueued(workIdAt: int -> Option<string>, user: string, ps0: seq<Proxy>, id0: int, n: nat, st: Updating)
    requires QueuedAdded(ps0, id0, n, user, st)
    ensures QueuedAdded(ps0, id0, n + 1, user, if st.raised then st else UpdateRow(workIdAt, user, st, n))
  {
  }

  lemma UpdateRowAbandoned(workIdAt: int -> Option<string>, user: string, ab0: seq<int>, n: nat, st: Updating)
    requires AbandonedShrinks(ab0, st)
    ensures AbandonedShrinks(ab0, UpdateRow(workIdAt, user, st, n))
  {
    var wid := workIdAt(n);
    if wid.Some? {
      match FirstWhere(st.proxies, HasWork(wid.value))
      case Some(k) =>
        var u := UpdateRow(workIdAt, user, st, n);
        assert u.proxies[k].id == st.proxies[k].id && u.proxies[k].state.status == "updating";
        forall j | j in ab0 && j !in u.abandoned
          ensures exists m :: 0 <= m < |u.proxies| && u.proxies[m].id == j && u.proxies[m].state.status == "updating"
        {
          if j != st.proxies[k].id {
            var m :| 0 <= m < |st.proxies| && st.proxies[m].id == j && st.proxies[m].state.status == "updating";
            assert m != k && u.proxies[m] == st.proxies[m];
          } else {
            assert u.proxies[k].id == j;
          }
        }
      case None =>
        var u := UpdateRow(workIdAt, user, st, n);
        forall j | j in ab0 && j !in u.abandoned
          ensures exists m :: 0 <= m < |u.proxies| && u.proxies[m].id == j && u.proxies[m].state.status == "updating"
        {
          var m :| 0 <= m < |st.proxies| && st.proxies[m].id == j && st.proxies[m].state.status == "updating";
          assert u.proxies[m] == st.proxies[m];
        }
    }
  }

  lemma UpdateRowsDrafts(workIdAt: int -> Option<string>, user: string, st0: Updating, n: nat)
    ensures DraftsKept(st0.proxies, n, UpdateRows(workIdAt, user, st0, n))
  {
    var step := UpdateStep(workIdAt, user);
    var inv := (m: nat, st: Updating) => DraftsKept(st0.proxies, m, st);
    forall m: nat, st | inv(m, st)
      ensures inv(m + 1, if st.raised then st else step(st, m))
    {
      UpdateRowDrafts(workIdAt, user, st0.proxies, m, st);
    }
    RowLoopKeeps(step, inv, st0, n);
  }

  lemma UpdateRowsQueued(workIdAt: int -> Option<string>, user: string, st0: Updating, n: nat)
    ensures QueuedAdded(st0.proxies, st0.nextId, n, user, UpdateRows(workIdAt, user, st0, n))
  {
    var step := UpdateStep(workIdAt, user);
    var inv := (m: nat, st: Updating) => QueuedAdded(st0.proxies, st0.nextId, m, user, st);
    forall m: nat, st | inv(m, st)
      ensures inv(m + 1, if st.raised then st else step(st, m))
    {
      UpdateRowQueued(workIdAt, user, st0.proxies, st0.nextId, m, st);
    }
    RowLoopKeeps(step, inv, st0, n);
  }

  lemma UpdateRowsAbandoned(workIdAt: int -> Option<string>, user: string, st0: Updating, n: nat)
    ensures AbandonedShrinks(st0.abandoned, UpdateRows(workIdAt, user, st0, n))
  {
    var step := UpdateStep(workIdAt, user);
    var inv := (m: nat, st: Updating) => AbandonedShrinks(st0.abandoned, st);
    forall m: nat, st | inv(m, st)
      ensures inv(m + 1, if st.raised then st else step(st, m))
    {
      if !st.raised {
        UpdateRowAbandoned(workIdAt, user, st0.abandoned, m, st);
      }
    }
    RowLoopKeeps(step, inv, st0, n);
  }

  /** What the first loop of `apply_update!` does to the table, for any
      number of rows. */
  lemma UpdateRowsTable(workIdAt: int -> Option<string>, user: string, st0: Updating, n: nat)
    ensures var u := UpdateRows(workIdAt, user, st0, n);
      DraftsKept(st0.proxies, n, u) && QueuedAdded(st0.proxies, st0.nextId, n, user, u) &&
      AbandonedShrinks(st0.abandoned, u)
  {
    UpdateRowsDrafts(workIdAt, user, st0, n);
    UpdateRowsQueued(workIdAt, user, st0, n);
    UpdateRowsAbandoned(workIdAt, user, st0, n);
  }

  /** The proxies left once the abandoned ones are destroyed, in table
      order. */
  function Survivors(ps: seq<Proxy>, abandoned: seq<int>): (r: seq<Proxy>)
    ensures forall p :: p in r <==> p in ps && p.id !in abandoned
  {
    if ps == [] then []
    else Survivors(ps[..|ps| - 1], abandoned) + (if ps[|ps| - 1].id in abandoned then [] else [ps[|ps| - 1]])
  }

  /** When the draft ids are below the next free id, every "queued" proxy
      the first loop makes survives the destruction of the abandoned
      drafts. */
  lemma QueuedSurvive(workIdAt: int -> Option<string>, user: string, ps0: seq<Proxy>, id0: int, n: nat)
    requires forall k :: 0 <= k < |ps0| ==> ps0[k].id < id0
    ensures var u := UpdateRows(workIdAt, user, Updating(ps0, id0, Ids(ps0), false), n);
      forall k :: |ps0| <= k < |u.proxies| ==>
        u.proxies[k] in Survivors(u.proxies, u.abandoned) && u.proxies[k].state.status == "queued"
  {
    var st0 := Updating(ps0, id0, Ids(ps0), false);
    var u := UpdateRows(workIdAt, user, st0, n);
    UpdateRowsTable(workIdAt, user, st0, n);
    forall k | |ps0| <= k < |u.proxies|
      ensures u.proxies[k].id !in u.abandoned
    {
    }
  }

  /** When the draft ids are distinct, a draft survives only when some row
      matched it, and it is then "updating". */
  lemma DraftsSurviveUpdating(workIdAt: int -> Option<string>, user: string, ps0: seq<Proxy>, id0: int, n: nat)
    requires forall k :: 0 <= k < |ps0| ==> ps0[k].id < id0
    requires forall k, m :: 0 <= k < m < |ps0| ==> ps0[k].id != ps0[m].id
    ensures var u := UpdateRows(workIdAt, user, Updating(ps0, id0, Ids(ps0), false), n);
      forall k :: 0 <= k < |ps0| && k < |u.proxies| && u.proxies[k] in Survivors(u.proxies, u.abandoned) ==>
        u.proxies[k].state.status == "updating"
  {
    var st0 := Updating(ps0, id0, Ids(ps0), false);
    var u := UpdateRows(workIdAt, user, st0, n);
    UpdateRowsTable(workIdAt, user, st0, n);
    forall k | 0 <= k < |ps0| && u.proxies[k].id !in u.abandoned
      ensures u.proxies[k].state.status == "updating"
    {
      DraftUpdating(ps0, id0, n, user, u, k);
    }
  }

  /** A draft whose id left the abandoned list is the proxy that was set
      "updating": ids are distinct and the queued ones lie above them. */
  lemma DraftUpdating(ps0: seq<Proxy>, id0: int, n: int, user: string, u: Updating, k: int)
    requires forall k :: 0 <= k < |ps0| ==> ps0[k].id < id0
    requires forall k, m :: 0 <= k < m < |ps0| ==> ps0[k].id != ps0[m].id
    requires DraftsKept(ps0, n, u) && QueuedAdded(ps0, id0, n, user, u) && AbandonedShrinks(Ids(ps0), u)
    requires 0 <= k < |ps0| && u.proxies[k].id !in u.abandoned
    ensures u.proxies[k].state.status == "updating"
  {
    assert Ids(ps0)[k] == ps0[k].id;
    forall j | 0 <= j < |u.proxies| && j != k
      ensures u.proxies[j].id != ps0[k].id
    {
      if j >= |ps0| {
        assert u.proxies[j].id == id0 + (j - |ps0|);
      } else {
        assert u.proxies[j].id == ps0[j].id;
      }
    }
  }

  // ---------------------------------------------------------------------
  // `abandoned_proxies` as written

  /** One row of the first loop of `apply_update!` as written.
      `abandoned_proxies = work_proxies.dup` (line 180) is a second proxy
      over the same `has_many :work_proxies` association, not a snapshot.
      So `abandoned_proxies.delete(proxy)` (line 190) is the association's
      `delete`: without a `dependent:` option it nullifies the matched
      proxy's `operation_id`, and the proxy leaves the operation's table
      (the `update` at line 191 writes to the detached record). An
      unmatched row adds a "queued" proxy to the same association. */
  function UpdateRowAsWritten(workIdAt: int -> Option<string>, user: string, st: Updating, r: int): Updating {
    var wid := workIdAt(r);
    if wid.None? then st.(raised := true)
    else match FirstWhere(st.proxies, HasWork(wid.value))
      case Some(k) => st.(proxies := st.proxies[..k] + st.proxies[k + 1..])
      case None => st.(proxies := st.proxies + [QueuedProxy(st.nextId, r, user)], nextId := st.nextId + 1)
  }

  function UpdateStepAsWritten(workIdAt: int -> Option<string>, user: string): (Updating, int) -> Updating {
    (st: Updating, r: int) => UpdateRowAsWritten(workIdAt, user, st, r)
  }

  /** The first loop as written over rows 0..n-1. The operation's table it
      leaves is what `abandoned_proxies.each` (line 204) walks and
      destroys. */
  function UpdateRowsAsWritten(workIdAt: int -> Option<string>, user: string, st0: Updating, n: nat): Updating {
    RowLoop(UpdateStepAsWritten(workIdAt, user), st0, n)
  }

  /** No two proxies carry the same work id. */
  predicate DistinctWorkIds(ps: seq<Proxy>) {
    forall i, j :: 0 <= i < j < |ps| && ps[i].state.workId.Some? ==> ps[i].state.workId != ps[j].state.workId
  }

  /** After r rows of the as-written loop: every proxy is a draft or a
      "queued" one without a work id, work ids stay distinct, and no proxy
      carries a work id an earlier row named. */
  predicate DetachedAfter(ps0: seq<Proxy>, workIdAt: int -> Option<string>, r: nat, st: Updating) {
    (forall p :: p in st.proxies ==> p in ps0 || (p.state.status == "queued" && p.state.workId.None?)) &&
    DistinctWorkIds(st.proxies) &&
    (!st.raised ==> forall q, p :: 0 <= q < r && p in st.proxies && workIdAt(q).Some? ==> p.state.workId != workIdAt(q))
  }

  lemma DetachedStep(ps0: seq<Proxy>, workIdAt: int -> Option<string>, user: string, r: nat, st: Updating)
    requires DetachedAfter(ps0, workIdAt, r, st)
    ensures DetachedAfter(ps0, workIdAt, r + 1, if st.raised then st else UpdateRowAsWritten(workIdAt, user, st, r))
  {
    if !st.raised && workIdAt(r).Some? {
      var w := workIdAt(r).value;
      var ps := st.proxies;
      match FirstWhere(ps, HasWork(w))
      case Some(k) =>
        var qs := ps[..k] + ps[k + 1..];
        assert forall i :: 0 <= i < |qs| ==> qs[i] == ps[if i < k then i else i + 1];
        forall p | p in qs
          ensures p in ps && p.state.workId != Some(w)
        {
          var i :| 0 <= i < |qs| && qs[i] == p;
          var j := if i < k then i else i + 1;
          assert ps[j] == p && j != k;
          assert ps[k].state.workId == Some(w);
        }
      case None =>
        var qs := ps + [QueuedProxy(st.nextId, r, user)];
        forall p | p in qs
          ensures p.state.workId != Some(w)
        {
          var i :| 0 <= i < |qs| && qs[i] == p;
          if i < |ps| { assert !HasWork(w)(ps[i]); }
        }
    }
  }

  /** As written, every proxy the operation still owns after the first loop
      is either a draft or a "queued" proxy of line 196, and, unless the loop
      raised, none carries the work id of a row. So no matched draft is left
      in the operation, and `abandoned_proxies.each` destroys every queued
      proxy; the corrected reading keeps them (`QueuedSurvive`,
      `DraftsSurviveUpdating`). */
  lemma UpdateRowsAsWrittenDetaches(workIdAt: int -> Option<string>, user: string, ps0: seq<Proxy>, id0: int, n: nat)
    requires DistinctWorkIds(ps0)
    ensures var u := UpdateRowsAsWritten(workIdAt, user, Updating(ps0, id0, Ids(ps0), false), n);
      (forall p :: p in u.proxies ==> p in ps0 || p.state.status == "queued") &&
      (!u.raised ==> forall r, p :: 0 <= r < n && p in u.proxies ==> p.state.workId != workIdAt(r))
  {
    var st0 := Updating(ps0, id0, Ids(ps0), false);
    var inv := (r: nat, st: Updating) => DetachedAfter(ps0, workIdAt, r, st);
    var step := UpdateStepAsWritten(workIdAt, user);
    forall r: nat, st | inv(r, st)
      ensures inv(r + 1, if st.raised then st else step(st, r))
    {
      DetachedStep(ps0, workIdAt, user, r, st);
    }
    RowLoopKeeps(step, inv, st0, n);
    var u := UpdateRowsAsWritten(workIdAt, user, st0, n);
    if !u.raised {
      UpdateRowsRaisesAsWritten(workIdAt, user, st0, n);
    }
  }

  /** The as-written loop raises exactly as the corrected one: at a row
      without a work id. */
  lemma {:induction false} UpdateRowsRaisesAsWritten(workIdAt: int -> Option<string>, user: string, st0: Updating,
                                                     n: nat)
    requires !st0.raised
    ensures UpdateRowsAsWritten(workIdAt, user, st0, n).raised <==> exists r :: 0 <= r < n && workIdAt(r).None?
  {
    if n > 0 {
      UpdateRowsRaisesAsWritten(workIdAt, user, st0, n - 1);
    }
  }

  /** A draft with work id "w" and a sheet whose row 0 names "w" and row 1
      names "v". Under the snapshot reading both the draft, "updating", and
      a new "queued" proxy survive to the job loop. As written the draft is
      detached, and the queued proxy is all that is left, for line 204 to
      destroy. */
  lemma ApplyUpdateAsWrittenExample(user: string)
    ensures var d := Proxy(0, ProxyState(0, "draft", None, Some("w"), None, None, None, None, None, None, []));
      var st0 := Updating([d], 1, [0], false);
      var c := UpdateRows(TwoRowIds, user, st0, 2);
      var a := UpdateRowsAsWritten(TwoRowIds, user, st0, 2);
      var s := Survivors(c.proxies, c.abandoned);
      |s| == 2 && s[0].id == 0 && s[0].state.status == "updating" && s[1] == QueuedProxy(1, 1, user) &&
      !a.raised && a.proxies == [QueuedProxy(1, 1, user)]
  {
    var d := Proxy(0, ProxyState(0, "draft", None, Some("w"), None, None, None, None, None, None, []));
    var st0 := Updating([d], 1, [0], false);
    assert HasWork("w")(d);
    assert FirstWhere([d], HasWork("w")) == Some(0);
    assert RowLoop(UpdateStep(TwoRowIds, user), st0, 0) == st0;
    assert UpdateStep(TwoRowIds, user)(st0, 0) == UpdateRow(TwoRowIds, user, st0, 0);
    var c1 := UpdateRows(TwoRowIds, user, st0, 1);
    assert c1 == UpdateRow(TwoRowIds, user, st0, 0);
    assert c1.proxies[0].state.status == "updating" && c1.abandoned == [] && |c1.proxies| == 1;
    assert FirstWhere(c1.proxies, HasWork("v")) == None;
    assert UpdateStep(TwoRowIds, user)(c1, 1) == UpdateRow(TwoRowIds, user, c1, 1);
    var c2 := UpdateRows(TwoRowIds, user, st0, 2);
    assert c2 == UpdateRow(TwoRowIds, user, c1, 1);
    assert c2.proxies == c1.proxies + [QueuedProxy(1, 1, user)] && c2.abandoned == [];
    assert Survivors(c2.proxies[..1], [])  == c1.proxies;
    assert RowLoop(UpdateStepAsWritten(TwoRowIds, user), st0, 0) == st0;
    assert UpdateStepAsWritten(TwoRowIds, user)(st0, 0) == UpdateRowAsWritten(TwoRowIds, user, st0, 0);
    var a1 := UpdateRowsAsWritten(TwoRowIds, user, st0, 1);
    assert a1 == UpdateRowAsWritten(TwoRowIds, user, st0, 0);
    assert a1.proxies == [];
    assert FirstWhere(a1.proxies, HasWork("v")) == None;
    assert UpdateStepAsWritten(TwoRowIds, user)(a1, 1) == UpdateRowAsWritten(TwoRowIds, user, a1, 1);
    assert UpdateRowsAsWritten(TwoRowIds, user, st0, 2) == UpdateRowAsWritten(TwoRowIds, user, a1, 1);
  }

  /** The work ids of the example sheet. */
  function TwoRowIds(r: int): Option<string> {
    if r == 0 then Some("w") else Some("v")
  }

  /** The interpretation of a surviving proxy in the job loop of
      `apply_update!`: a fresh parser over the sheet and the proxy's row. */
  function UpdateRound(x: RunContext, p: Proxy): Interpreted {
    x.interpret(p.id, p.state, p.state.rowNumber)
  }

  /** One round of the job loop of `apply_update!` for the proxy at index
      k: it is interpreted in place and an update job is queued for it,
      whatever its errors, unless the interpretation raised. */
  function UpdateJob(x: RunContext, st: Applied, k: int): Applied {
    if 0 <= k < |st.proxies| then
      var p := st.proxies[k];
      var res := UpdateRound(x, p);
      Applied(st.proxies[k := Proxy(p.id, res.proxy)],
              if res.raised then st.jobs else st.jobs + [JobOf(UpdateWorkJob, x, p.id, res)], res.raised)
    else st
  }

  /** The job loop of `apply_update!` over the first n proxies; an
      exception ends it. */
  function UpdateJobs(x: RunContext, ps: seq<Proxy>, n: nat): Applied {
    if n == 0 then Applied(ps, [], false)
    else
      var prev := UpdateJobs(x, ps, n - 1);
      if prev.raised then prev else UpdateJob(x, prev, n - 1)
  }

  lemma UpdateJobFacts(x: RunContext, st: Applied, k: int)
    requires 0 <= k < |st.proxies|
    ensures var r := UpdateJob(x, st, k);
      |r.proxies| == |st.proxies| &&
      (forall i :: 0 <= i < |st.proxies| ==> r.proxies[i].id == st.proxies[i].id) &&
      (r.raised ==> r.jobs == st.jobs) &&
      (!r.raised ==> r.jobs == st.jobs + [JobOf(UpdateWorkJob, x, st.proxies[k].id, UpdateRound(x, st.proxies[k]))])
  {
  }

  /** The job loop queues exactly one update job per proxy, in table order,
      until an exception; the proxies keep their ids. */
  lemma {:induction false} UpdateJobsSpec(x: RunContext, ps: seq<Proxy>, n: nat)
    requires n <= |ps|
    ensures var a := UpdateJobs(x, ps, n);
      |a.proxies| == |ps| && (forall i :: 0 <= i < |ps| ==> a.proxies[i].id == ps[i].id) &&
      |a.jobs| <= n && (!a.raised ==> |a.jobs| == n) &&
      forall i :: 0 <= i < |a.jobs| ==>
        a.jobs[i].kind == UpdateWorkJob && a.jobs[i].proxyId == ps[i].id && a.jobs[i].email == x.email
  {
    if n > 0 {
      UpdateJobsSpec(x, ps, n - 1);
      var prev := UpdateJobs(x, ps, n - 1);
      if !prev.raised {
        UpdateJobFacts(x, prev, n - 1);
      }
    }
  }

  /** `apply_update!` on the operation state: the sheet is loaded, the
      first loop reconciles the table, and unless it raised the abandoned
      drafts are destroyed and the job loop runs over the survivors. */
  function Updated(s: OperationState, o: Options, master: seq<Row>, env: ParseContext, operationId: int, user: string,
                   email: string): (OperationState, bool)
  {
    var sheet := SheetOf(s, master);
    var u := UpdateRows(WorkIdsOf(sheet), user, Updating(s.proxies, s.nextProxyId, Ids(s.proxies), false), |sheet|);
    var s1 := s.(metadata := Some(sheet), proxies := u.proxies, nextProxyId := u.nextId);
    if u.raised then (s1, true)
    else
      var surv := Survivors(u.proxies, u.abandoned);
      var x := Context(OperationContext(env, o, surv), operationId, sheet, "", email);
      var a := UpdateJobs(x, surv, |surv|);
      (s1.(proxies := a.proxies, jobs := s.jobs + a.jobs), a.raised)
  }

  /** The `values.each` loop of `apply_update!`: the last work-id column
      of the row gives the work id, nil for an empty cell. */
  method FindWorkId(row: Row) returns (wid: Option<string>)
    ensures wid == WorkIdOf(row)
  {
    wid := None;
    var i := 0;
    while i < |row|
      invariant 0 <= i <= |row|
      invariant wid == WorkIdOf(row[..i])
    {
      assert row[..i + 1][..i] == row[..i];
      if WorkIdHeader(row[i].0) {
        wid := if row[i].1 == "" then None else Some(row[i].1);
      }
      i := i + 1;
    }
    assert row[..i] == row;
  }

  /** One row of the first loop of `apply_update!`. */
  method ReconcileRow(sheet: seq<Row>, user: string, st: Updating, r: int) returns (u: Updating)
    ensures u == UpdateStep(WorkIdsOf(sheet), user)(st, r)
  {
    var wid := FindWorkId(RowAt(sheet, r));
    if wid.None? {
      return st.(raised := true);
    }
    var f := FirstWhere(st.proxies, HasWork(wid.value));
    if f.Some? {
      var p := st.proxies[f.value];
      var updated := p.state.(status := "updating", rowNumber := r, message := Some(UPDATE_MESSAGE + user));
      u := st.(proxies := st.proxies[f.value := Proxy(p.id, updated)], abandoned := Without(st.abandoned, p.id));
    } else {
      u := st.(proxies := st.proxies + [QueuedProxy(st.nextId, r, user)], nextId := st.nextId + 1);
    }
  }

  /** The first loop of `apply_update!` over every row of the sheet. */
  method Reconcile(sheet: seq<Row>, user: string, st0: Updating) returns (u: Updating)
    ensures u == UpdateRows(WorkIdsOf(sheet), user, st0, |sheet|)
  {
    ghost var step := UpdateStep(WorkIdsOf(sheet), user);
    u := st0;
    var r := 0;
    while r < |sheet| && !u.raised
      invariant 0 <= r <= |sheet|
      invariant u == RowLoop(step, st0, r)
    {
      assert RowLoop(step, st0, r + 1) == step(u, r);
      u := ReconcileRow(sheet, user, u, r);
      r := r + 1;
    }
    RowLoopHalted(step, st0, r, |sheet|);
  }


  /** The job loop of `apply_update!`. */
  method QueueUpdates(x: RunContext, ps: seq<Proxy>) returns (table: seq<Proxy>, queued: seq<Job>, raised: bool)
    ensures Applied(table, queued, raised) == UpdateJobs(x, ps, |ps|)
  {
    table, queued, raised := ps, [], false;
    var i := 0;
    while i < |ps| && !raised
      invariant 0 <= i <= |ps|
      invariant |table| == |ps|
      invariant Applied(table, queued, raised) == UpdateJobs(x, ps, i)
    {
      var p := table[i];
      var res := UpdateRound(x, p);
      table := table[i := Proxy(p.id, res.proxy)];
      if res.raised {
        raised := true;
      } else {
        queued := queued + [JobOf(UpdateWorkJob, x, p.id, res)];
      }
      assert Applied(table, queued, raised) == UpdateJob(x, UpdateJobs(x, ps, i), i);
      i := i + 1;
    }
    if raised {
      UpdateJobsHalted(x, ps, i, |ps|);
    }
  }

  /** A round of the job loop changes only the proxy it interprets. */
  lemma {:induction false} UpdateJobsAhead(x: RunContext, ps: seq<Proxy>, n: nat, j: int)
    requires n <= j < |ps|
    ensures |UpdateJobs(x, ps, n).proxies| == |ps| && UpdateJobs(x, ps, n).proxies[j] == ps[j]
  {
    if n > 0 {
      UpdateJobsAhead(x, ps, n - 1, j);
    }
  }

  /** A survivor whose round raises ends the job loop: nothing is queued
      for it or after it. */
  lemma UpdateJobsStopAt(x: RunContext, ps: seq<Proxy>, k: nat)
    requires k < |ps| && UpdateRound(x, ps[k]).raised
    ensures UpdateJobs(x, ps, |ps|).raised && |UpdateJobs(x, ps, |ps|).jobs| <= k
  {
    UpdateJobsSpec(x, ps, k);
    var prev := UpdateJobs(x, ps, k);
    if !prev.raised {
      UpdateJobsAhead(x, ps, k, k);
    }
    assert UpdateJobs(x, ps, k + 1).raised;
    assert UpdateJobs(x, ps, k + 1).jobs == prev.jobs;
    UpdateJobsHalted(x, ps, k + 1, |ps|);
  }

  /** As written, the file pass of `interpret_data` raises, so the job
      loop of `apply_update!` stops at the first survivor whose row has a
      cell the pass calls on. */
  lemma UpdateJobsFileCallRaises(env: ParseContext, operationId: int, sheet: seq<Row>, now: string, email: string,
                                 ps: seq<Proxy>, k: nat, i: int)
    requires env.filePass == FileCallAsWritten && k < |ps|
    requires var row := InterpretedRow(FreshParser(sheet, ps[k].state.rowNumber), RowAt(sheet, ps[k].state.rowNumber));
      0 <= i < |row| && ReachesFileCall(row[i])
    ensures var a := UpdateJobs(Context(env, operationId, sheet, now, email), ps, |ps|);
      a.raised && |a.jobs| <= k
  {
    var s := ps[k].state;
    FilePassRaisesAsWritten(env, ps[k].id, operationId, FreshParser(sheet, s.rowNumber), s, RowAt(sheet, s.rowNumber), i);
    UpdateJobsStopAt(Context(env, operationId, sheet, now, email), ps, k);
  }

  lemma {:induction false} UpdateJobsHalted(x: RunContext, ps: seq<Proxy>, i: nat, n: nat)
    requires i <= n <= |ps| && UpdateJobs(x, ps, i).raised
    ensures UpdateJobs(x, ps, n) == UpdateJobs(x, ps, i)
    decreases n - i
  {
    if i < n {
      UpdateJobsHalted(x, ps, i, n - 1);
    }
  }

  // ---------------------------------------------------------------------
  // check_if_finished

  /** `accumulated_errors`: every proxy's errors in table order (a proxy's
      `proxy_errors` is never nil, and no operation-level error survives
      being recorded). */
  function AllProxyErrors(ps: seq<Proxy>): seq<Error> {
    if ps == [] then [] else AllProxyErrors(ps[..|ps| - 1]) + ps[|ps| - 1].state.proxyErrors
  }

  /** The proxy table as a later call loads it: `proxy_errors` is an
      accessor, not a column, so a reloaded proxy starts with none. */
  function Reloaded(ps: seq<Proxy>): (r: seq<Proxy>)
    ensures |r| == |ps| && forall i :: 0 <= i < |ps| ==> r[i].id == ps[i].id && r[i].state.proxyErrors == []
  {
    seq(|ps|, i requires 0 <= i < |ps| => Proxy(ps[i].id, ps[i].state.(proxyErrors := [])))
  }

  /** A reloaded table holds no errors. */
  lemma ReloadedHasNoErrors(ps: seq<Proxy>)
    ensures AllProxyErrors(Reloaded(ps)) == []
  {
    AllProxyErrorsEmpty(Reloaded(ps));
  }

  lemma {:induction false} AllProxyErrorsEmpty(ps: seq<Proxy>)
    ensures AllProxyErrors(ps) == [] <==> forall i :: 0 <= i < |ps| ==> ps[i].state.proxyErrors == []
  {
    if ps != [] {
      var init := ps[..|ps| - 1];
      AllProxyErrorsEmpty(init);
      assert forall i :: 0 <= i < |init| ==> init[i] == ps[i];
    }
  }

  /** `Work.find(proxy.work_id).save` raises when the proxy has no work id
      or the work cannot be loaded; the rescue clause then raises again,
      since `BulkOps::Error.new(:ingest_failure, ...)` at line 159 passes
      the type positionally to a keyword-only `initialize` (error.rb:7). */
  predicate SaveRaises(repo: Repository, s: ProxyState) {
    s.workId.None? || !repo.fetch(s.workId.value).Found?
  }

  /** The set of relationship records a call may resolve. */
  function Records(pending: seq<(Relationship, Option<string>)>): set<Relationship> {
    set i | 0 <= i < |pending| :: pending[i].0
  }

  /** The relationship loop of `check_if_finished`: each pending record is
      resolved in turn and the first exception ends the loop (its rescue
      clause at line 150 names the undefined `proxy` and `relationship`,
      so it raises NameError again). `pending` stands for the "pending"
      relationships of the operation's proxies (line 145). */
  method ResolvePending(repo: Repository, operationId: int, pending: seq<(Relationship, Option<string>)>)
    returns (raised: bool)
    requires Valid(repo)
    modifies repo.works, Records(pending)
    ensures raised <==> exists i :: 0 <= i < |pending| && CreateRaises(repo, operationId, pending[i].1, pending[i].0.params)
    ensures !raised ==> forall i :: 0 <= i < |pending| ==> pending[i].0.status in ["pending", "complete"]
  {
    var i := 0;
    while i < |pending|
      invariant 0 <= i <= |pending|
      invariant forall j :: 0 <= j < i ==> !CreateRaises(repo, operationId, pending[j].1, pending[j].0.params)
      invariant forall j :: 0 <= j < i ==> pending[j].0.status in ["pending", "complete"]
    {
      var rel := pending[i].0;
      label before:
      var r, target := rel.Resolve(repo, operationId, pending[i].1);
      if r {
        return true;
      }
      forall j | 0 <= j < i + 1
        ensures pending[j].0.status in ["pending", "complete"]
      {
        if pending[j].0 != rel {
          assert pending[j].0.status == old@before(pending[j].0.status);
        }
      }
      i := i + 1;
    }
    raised := false;
  }

  /** The save loop of `check_if_finished`: a proxy without a work id, or
      whose work cannot be found, raises. */
  method SaveAll(repo: Repository, ps: seq<Proxy>) returns (raised: bool)
    ensures raised <==> exists i :: 0 <= i < |ps| && SaveRaises(repo, ps[i].state)
  {
    var k := 0;
    while k < |ps|
      invariant 0 <= k <= |ps|
      invariant forall j :: 0 <= j < k ==> !SaveRaises(repo, ps[j].state)
    {
      if SaveRaises(repo, ps[k].state) {
        return true;
      }
      k := k + 1;
    }
    raised := false;
  }

  // ---------------------------------------------------------------------
  // The operation record

  class Operation {
    const id: int
    const options: Options
    var stage: string
    var status: string
    var message: Option<string>
    var proxies: seq<Proxy>
    var nextProxyId: int
    var metadata: Option<seq<Row>>
    var jobs: seq<Job>

    /** A loaded operation record with its proxy table; no sheet is
        loaded and no job is queued yet. */
    constructor (id: int, options: Options, stage: string, status: string, proxies: seq<Proxy>, nextProxyId: int)
      ensures this.id == id && this.options == options
      ensures Snapshot() == OperationState(stage, status, None, proxies, nextProxyId, None, [])
    {
      this.id := id;
      this.options := options;
      this.stage := stage;
      this.status := status;
      message := None;
      this.proxies := proxies;
      this.nextProxyId := nextProxyId;
      metadata := None;
      jobs := [];
    }

    function Snapshot(): OperationState
      reads this
    {
      OperationState(stage, status, message, proxies, nextProxyId, metadata, jobs)
    }

    /** `proxy_states`: one bucket per status that occurs, holding exactly
        the proxies with that status in table order. */
    method ProxyStates() returns (states: map<string, seq<Proxy>>)
      ensures forall k :: k in states <==> exists i :: 0 <= i < |proxies| && proxies[i].state.status == k
      ensures forall k :: k in states ==> states[k] == WithStatus(proxies, k)
    {
      states := map[];
      var i := 0;
      while i < |proxies|
        invariant 0 <= i <= |proxies|
        invariant forall k :: k in states <==> exists j :: 0 <= j < i && proxies[j].state.status == k
        invariant forall k :: k in states ==> states[k] == WithStatus(proxies[..i], k)
      {
        var p := proxies[i];
        var st := p.state.status;
        assert proxies[..i + 1][..i] == proxies[..i];
        if st !in states {
          WithStatusNone(proxies[..i], st);
        }
        states := states[st := (if st in states then states[st] else []) + [p]];
        i := i + 1;
      }
      assert proxies[..i] == proxies;
    }

    /** `destroy_all_proxies`: the table is emptied and the operation is
        marked as reverted. */
    method DestroyAllProxies()
      modifies this
      ensures Snapshot() == old(Snapshot()).(proxies := [], stage := "waiting", status := "reverted changes")
    {
      proxies := [];
      stage := "waiting";
      status := "reverted changes";
    }

    /** `check_if_finished`: nothing happens unless the operation is
        running and no proxy is busy. Otherwise the stage becomes
        "finishing", the pending relationships (each with its proxy's work
        id) are resolved in turn and every proxy's work is saved; an
        exception on the way ends the call, else the stage becomes
        "complete" when the proxies it loaded have no errors and "errors"
        otherwise. It runs in a later job than the one that recorded the
        errors, on reloaded proxies, so it never sees "errors".
        `pending` stands for the records line 145 gathers: the relationships
        of the operation's proxies whose status is "pending", in proxy
        order. That assumes a relationships table; once migration
        20200122234235 drops it, `proxy.relationships` raises on any
        non-empty proxy table. */
    method CheckIfFinished(repo: Repository, pending: seq<(Relationship, Option<string>)>) returns (raised: bool)
      requires Valid(repo)
      modifies this, repo.works, Records(pending)
      ensures !(old(stage) == "running" && !Busy(old(proxies))) ==> !raised && Snapshot() == old(Snapshot())
      ensures old(stage) == "running" && !Busy(old(proxies)) ==>
        Snapshot() == old(Snapshot()).(stage := Snapshot().stage) &&
        (raised <==> (exists i :: 0 <= i < |pending| && CreateRaises(repo, id, pending[i].1, pending[i].0.params)) ||
                     (exists i :: 0 <= i < |proxies| && SaveRaises(repo, proxies[i].state))) &&
        (raised ==> stage == "finishing") &&
        (!raised ==> stage == "complete" &&
                     forall i :: 0 <= i < |pending| ==> pending[i].0.status in ["pending", "complete"])
    {
      if !(stage == "running" && !Busy(proxies)) {
        return false;
      }
      stage := "finishing";
      raised := ResolvePending(repo, id, pending);
      if raised {
        return;
      }
      raised := SaveAll(repo, proxies);
      if raised {
        return;
      }
      ReloadedHasNoErrors(proxies);
      stage := if AllProxyErrors(Reloaded(proxies)) == [] then "complete" else "errors";
      raised := false;
    }

    /** The first part of `apply!`: the stage and message are set, the
        sheet is loaded, unfinished proxies are destroyed and the creation
        loop makes a proxy for each pending row that is neither blank nor
        a file set. The pending rows are returned for the second part. */
    method Prepare(master: seq<Row>, schema: Schema, typeCellAt: int -> Option<string>, user: string)
      returns (rows: seq<int>)
      modifies this
      ensures rows == PendingRows(old(Snapshot()), master)
      ensures Snapshot() == Prepared(old(Snapshot()), options, master, schema, typeCellAt, user)
    {
      var sheet := if metadata.Some? then metadata.value else master;
      var table, nid;
      rows, table, nid := PrepareTable(Snapshot(), options, master, schema, typeCellAt, user);
      stage, status, message, metadata := "running", "OK", Some(INGEST_MESSAGE + user), Some(sheet);
      proxies, nextProxyId := table, nid;
    }

    /** `apply!` with the parser given the sheet and a row without a proxy
        passed over: after `Prepare`, each pending row's proxy has its
        message stamped and its row interpreted, and a job is queued for it
        when it has no errors; an exception ends the loop. */
    method Apply(master: seq<Row>, env: ParseContext, typeCellAt: int -> Option<string>, user: string, email: string,
                 now: string) returns (raised: bool)
      modifies this
      ensures var p := Prepared(old(Snapshot()), options, master, env.schema, typeCellAt, user);
        var x := Context(OperationContext(env, options, p.proxies), id, SheetOf(old(Snapshot()), master), now, email);
        var a := ApplyRows(x, Applied(p.proxies, p.jobs, false), PendingRows(old(Snapshot()), master));
        Snapshot() == p.(proxies := a.proxies, jobs := a.jobs) && raised == a.raised
    {
      var rows := Prepare(master, env.schema, typeCellAt, user);
      var x := Context(OperationContext(env, options, proxies), id, metadata.value, now, email);
      var table, queued;
      table, queued, raised := ApplyPending(x, proxies, jobs, rows);
      proxies := table;
      jobs := queued;
    }

    /** `apply_update!`: the final sheet is loaded and reconciled with the
        proxy table; unless a row without a work-id column raised, the
        abandoned drafts are destroyed and an update job is queued for each
        remaining proxy. */
    method ApplyUpdate(master: seq<Row>, env: ParseContext, user: string, email: string) returns (raised: bool)
      modifies this
      ensures var r := Updated(old(Snapshot()), options, master, env, id, user, email);
        Snapshot() == r.0 && raised == r.1
    {
      var sheet := if metadata.Some? then metadata.value else master;
      metadata := Some(sheet);
      var u := Reconcile(sheet, user, Updating(proxies, nextProxyId, Ids(proxies), false));
      proxies := u.proxies;
      nextProxyId := u.nextId;
      if u.raised {
        return true;
      }
      var survivors := Survivors(u.proxies, u.abandoned);
      var x := Context(OperationContext(env, options, survivors), id, sheet, "", email);
      var table, queued;
      table, queued, raised := QueueUpdates(x, survivors);
      proxies := table;
      jobs := jobs + queued;
    }
  }
}
