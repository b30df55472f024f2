/**
 * The event cursor: pages of a server's event log are merged at the client, which drops what it has, refuses gaps, and
 * refuses rows that contradict each other. There are two implementations, in two languages; both are proved equal to `Merge`.
 */
module Events {
  import opened Basics

  const MAX := 0x1f_ffff_ffff_ffff
  const PAGE := 1000

  const STATES := {"preparing", "prepared", "starting", "process-running", "guest-ready", "service-ready", "course-verified",
                   "stopping", "stopped", "resetting", "recovering", "failed", "unknown", "recovery-required"}
  const STAGES := {"intent", "executing", "cancel-requested", "failed", "cancelled", "completed"}

  /** A decoded value; `Other` stands for every kind that no field of an event may have. */
  datatype Value = Number(n: int) | Text(s: string) | Other

  /** `Malformed` is anything but an object with exactly these fields. */
  datatype Row =
    | Malformed
    | Row(protocol: Value, version: Value, id: Value, sequence: Value, timestamp: Value, instance: Value, generation: Value,
          operation: Value, revision: Value, stage: Value, state: Value)

  // ---------------------------------------------------------------- one row

  predicate IsHex(c: char) {
    '0' <= c <= '9' || 'a' <= c <= 'f'
  }

  predicate IsUuid(s: string) {
    |s| == 36 && forall i :: 0 <= i < 36 ==> if i in {8, 13, 18, 23} then s[i] == '-' else IsHex(s[i])
  }

  predicate UuidText(v: Value) {
    v.Text? && IsUuid(v.s)
  }

  predicate Safe(v: Value, least: nat) {
    v.Number? && least <= v.n <= MAX
  }

  /** The checks of one row in the order in which they decide the error. */
  function Defect(row: Row, instance: Option<string>): Option<string> {
    if row.Malformed? || row.protocol != Text("ctflab-local") || row.version != Number(1) then Some("event-gap")
    else if !Safe(row.sequence, 1) || !UuidText(row.id) || !UuidText(row.operation) || !UuidText(row.instance)
            || !Safe(row.generation, 1) || !Safe(row.revision, 0) then Some("invalid-request")
    else if instance.Some? && row.instance.s != instance.value then Some("event-gap")
    else if !(row.state.Text? && row.state.s in STATES) || !(row.stage.Text? && row.stage.s in STAGES)
            || !(row.timestamp.Text? && |row.timestamp.s| <= 64) then Some("event-gap")
    else None
  }

  /** The fields of a row taken by themselves. */
  predicate Legible(row: Row) {
    && row.Row? && row.protocol == Text("ctflab-local") && row.version == Number(1)
    && Safe(row.sequence, 1) && UuidText(row.id) && UuidText(row.operation) && UuidText(row.instance)
    && Safe(row.generation, 1) && Safe(row.revision, 0)
    && row.state.Text? && row.state.s in STATES && row.stage.Text? && row.stage.s in STAGES
    && row.timestamp.Text? && |row.timestamp.s| <= 64
  }

  // ---------------------------------------------------------------- the merge, row by row

  function SeqNo(row: Row): int {
    if row.Row? && row.sequence.Number? then row.sequence.n else 0
  }

  function IdOf(row: Row): string {
    if row.Row? && row.id.Text? then row.id.s else ""
  }

  function HomeOf(row: Row): string {
    if row.Row? && row.instance.Text? then row.instance.s else ""
  }

  datatype Progress = Progress(instance: Option<string>, ids: map<string, int>, news: seq<Row>)

  /** The new rows after one more: a repeated one must be the same, any other must be the next. */
  function Place(cursor: int, news: seq<Row>, row: Row): Option<seq<Row>> {
    var n := SeqNo(row);
    if n <= cursor then Some(news)
    else if n <= cursor + |news| then (if news[n - cursor - 1] == row then Some(news) else None)
    else if n == cursor + |news| + 1 then Some(news + [row])
    else None
  }

  function Step(cursor: int, p: Progress, row: Row): Result<Progress> {
    if Defect(row, p.instance).Some? then Err(Defect(row, p.instance).value)
    else if IdOf(row) in p.ids && p.ids[IdOf(row)] != SeqNo(row) then Err("event-gap")
    else match Place(cursor, p.news, row)
      case None => Err("event-gap")
      case Some(news) => Ok(Progress(Some(HomeOf(row)), p.ids[IdOf(row) := SeqNo(row)], news))
  }

  function Fold(cursor: int, rows: seq<Row>, instance: Option<string>): Result<Progress>
    decreases |rows|
  {
    if rows == [] then Ok(Progress(instance, map[], []))
    else
      match Fold(cursor, rows[..|rows| - 1], instance)
      case Err(code) => Err(code)
      case Ok(p) => Step(cursor, p, rows[|rows| - 1])
  }

  type Merge = Result<(int, seq<Row>)>

  function Merged(cursor: int, rows: seq<Row>, instance: Option<string>): Merge {
    if !(0 <= cursor <= MAX) || |rows| > PAGE then Err("invalid-request")
    else match Fold(cursor, rows, instance)
      case Err(code) => Err(code)
      case Ok(p) => Ok((cursor + |p.news|, p.news))
  }

  // ---------------------------------------------------------------- what a page means

  ghost predicate AllLegible(rows: seq<Row>) {
    forall x {:trigger Legible(x)} :: x in rows ==> Legible(x)
  }

  /** The instance expected: the one given, or that of the first row. */
  function HomeFor(rows: seq<Row>, instance: Option<string>): Option<string> {
    if instance.Some? || rows == [] then instance else Some(HomeOf(rows[0]))
  }

  ghost predicate OneStream(rows: seq<Row>, home: Option<string>) {
    forall x {:trigger HomeOf(x)} :: x in rows ==> Some(HomeOf(x)) == home
  }

  predicate SameId(x: Row, y: Row) {
    IdOf(x) == IdOf(y) ==> SeqNo(x) == SeqNo(y)
  }

  predicate SameRow(cursor: int, x: Row, y: Row) {
    SeqNo(x) == SeqNo(y) > cursor ==> x == y
  }

  ghost predicate IdsAgree(xs: seq<Row>, ys: seq<Row>) {
    forall x, y {:trigger SameId(x, y)} :: x in xs && y in ys ==> SameId(x, y)
  }

  ghost predicate RowsAgree(cursor: int, xs: seq<Row>, ys: seq<Row>) {
    forall x, y {:trigger SameRow(cursor, x, y)} :: x in xs && y in ys ==> SameRow(cursor, x, y)
  }

  ghost predicate Preceded(cursor: int, rows: seq<Row>, n: int) {
    n > cursor + 1 ==> exists x :: x in rows && SeqNo(x) == n - 1
  }

  ghost predicate NoGapAt(cursor: int, rows: seq<Row>, i: nat)
    requires i < |rows|
  {
    Preceded(cursor, rows[..i], SeqNo(rows[i]))
  }

  /** The row before each new row is at the cursor, or earlier in the page. */
  ghost predicate NoGap(cursor: int, rows: seq<Row>) {
    forall i {:trigger NoGapAt(cursor, rows, i)} :: 0 <= i < |rows| ==> NoGapAt(cursor, rows, i)
  }

  /** The rows that a client at the cursor may take, as a condition on the page as a whole. */
  ghost predicate Acceptable(cursor: int, rows: seq<Row>, instance: Option<string>) {
    && AllLegible(rows) && OneStream(rows, HomeFor(rows, instance))
    && IdsAgree(rows, rows) && RowsAgree(cursor, rows, rows) && NoGap(cursor, rows)
  }

  /** `news` is what the page has beyond the cursor: each sequence number once, in order, with nothing between. */
  ghost predicate Collects(cursor: int, rows: seq<Row>, news: seq<Row>) {
    && (forall k :: 0 <= k < |news| ==> SeqNo(news[k]) == cursor + k + 1 && news[k] in rows)
    && (forall x {:trigger Collected(cursor, x, news)} :: x in rows ==> Collected(cursor, x, news))
  }

  ghost predicate Collected(cursor: int, row: Row, news: seq<Row>) {
    var n := SeqNo(row);
    n > cursor ==> n <= cursor + |news| && news[n - cursor - 1] == row
  }

  // ---------------------------------------------------------------- the merge computes it

  ghost predicate IdKept(ids: map<string, int>, row: Row) {
    IdOf(row) in ids && ids[IdOf(row)] == SeqNo(row)
  }

  ghost predicate IdsOf(ids: map<string, int>, rows: seq<Row>) {
    && (forall x {:trigger IdKept(ids, x)} :: x in rows ==> IdKept(ids, x))
    && (forall id {:trigger id in ids} :: id in ids ==> exists x :: x in rows && IdOf(x) == id)
  }

  ghost predicate Tracks(cursor: int, rows: seq<Row>, instance: Option<string>, p: Progress) {
    p.instance == HomeFor(rows, instance) && IdsOf(p.ids, rows) && Collects(cursor, rows, p.news)
  }

  /** What accepting one more row adds. */
  ghost predicate Fits(cursor: int, front: seq<Row>, row: Row, instance: Option<string>) {
    && Legible(row) && Some(HomeOf(row)) == HomeFor(front + [row], instance)
    && IdsAgree(front, [row]) && RowsAgree(cursor, front, [row]) && Preceded(cursor, front, SeqNo(row))
  }

  lemma DefectMeaning(row: Row, instance: Option<string>)
    ensures Defect(row, instance).None? <==> Legible(row) && (instance.Some? ==> HomeOf(row) == instance.value)
  {
  }

  lemma IdsOneMore(ids: map<string, int>, front: seq<Row>, row: Row)
    requires IdsOf(ids, front)
    ensures IdsAgree(front, [row]) <==> (IdOf(row) in ids ==> ids[IdOf(row)] == SeqNo(row))
    ensures IdsAgree(front, [row]) ==> IdsOf(ids[IdOf(row) := SeqNo(row)], front + [row])
  {
    if IdOf(row) in ids {
      var x :| x in front && IdOf(x) == IdOf(row);
      assert IdKept(ids, x);
      assert SameId(x, row) <==> ids[IdOf(row)] == SeqNo(row);
    }
    forall x | x in front ensures IdKept(ids, x) {}
    if IdsAgree(front, [row]) {
      var more := ids[IdOf(row) := SeqNo(row)];
      forall id {:trigger id in more} | id in more ensures exists x :: x in front + [row] && IdOf(x) == id {
        if id == IdOf(row) {
          assert row in front + [row];
        } else {
          var x :| x in front && IdOf(x) == id;
          assert x in front + [row];
        }
      }
    }
  }

  lemma NextIsPreceded(cursor: int, front: seq<Row>, news: seq<Row>, n: int)
    requires Collects(cursor, front, news)
    ensures Preceded(cursor, front, n) <==> n <= cursor + |news| + 1
  {
    if cursor + 1 < n <= cursor + |news| + 1 {
      var before := news[n - cursor - 2];
      assert before in front && SeqNo(before) == n - 1;
    }
    forall x | x in front ensures SeqNo(x) <= cursor + |news| || SeqNo(x) <= cursor {
      assert Collected(cursor, x, news);
    }
  }

  lemma SameAgrees(cursor: int, front: seq<Row>, news: seq<Row>, row: Row)
    requires Collects(cursor, front, news)
    ensures RowsAgree(cursor, front, [row]) <==>
              (cursor < SeqNo(row) <= cursor + |news| ==> news[SeqNo(row) - cursor - 1] == row)
  {
    var n := SeqNo(row);
    if cursor < n <= cursor + |news| {
      var same := news[n - cursor - 1];
      assert SameRow(cursor, same, row) <==> same == row;
    }
    forall x {:trigger SameRow(cursor, x, row)} | x in front && SeqNo(x) == n > cursor
      ensures cursor < n <= cursor + |news| && x == news[n - cursor - 1]
    {
      assert Collected(cursor, x, news);
    }
  }

  lemma CollectsMore(cursor: int, front: seq<Row>, news: seq<Row>, row: Row)
    requires Collects(cursor, front, news) && Place(cursor, news, row).Some?
    ensures Collects(cursor, front + [row], Place(cursor, news, row).value)
  {
    var more := Place(cursor, news, row).value;
    forall x {:trigger Collected(cursor, x, more)} | x in front + [row] ensures Collected(cursor, x, more) {
      if x in front {
        assert Collected(cursor, x, news);
      }
    }
  }

  lemma PlaceMeaning(cursor: int, front: seq<Row>, news: seq<Row>, row: Row)
    requires Collects(cursor, front, news)
    ensures Place(cursor, news, row).Some? <==> RowsAgree(cursor, front, [row]) && Preceded(cursor, front, SeqNo(row))
  {
    NextIsPreceded(cursor, front, news, SeqNo(row));
    SameAgrees(cursor, front, news, row);
  }

  lemma HomeMeaning(front: seq<Row>, row: Row, instance: Option<string>)
    ensures HomeFor(front + [row], instance) == if HomeFor(front, instance).Some? then HomeFor(front, instance) else Some(HomeOf(row))
  {
  }

  lemma StepMeaning(cursor: int, front: seq<Row>, row: Row, instance: Option<string>, p: Progress)
    requires Tracks(cursor, front, instance, p)
    ensures Step(cursor, p, row).Ok? <==> Fits(cursor, front, row, instance)
    ensures Step(cursor, p, row).Ok? ==> Tracks(cursor, front + [row], instance, Step(cursor, p, row).value)
  {
    DefectMeaning(row, p.instance);
    IdsOneMore(p.ids, front, row);
    PlaceMeaning(cursor, front, p.news, row);
    HomeMeaning(front, row, instance);
    if Step(cursor, p, row).Ok? {
      CollectsMore(cursor, front, p.news, row);
    }
  }

  lemma GapOneMore(cursor: int, front: seq<Row>, row: Row)
    ensures NoGap(cursor, front + [row]) <==> NoGap(cursor, front) && Preceded(cursor, front, SeqNo(row))
  {
    var rows := front + [row];
    assert rows[..|front|] == front;
    assert NoGapAt(cursor, rows, |front|) <==> Preceded(cursor, front, SeqNo(row));
    forall i: nat | i < |front| ensures NoGapAt(cursor, rows, i) <==> NoGapAt(cursor, front, i) {
      assert rows[..i] == front[..i];
    }
  }

  lemma AgreeOneMore(cursor: int, front: seq<Row>, row: Row)
    ensures var rows := front + [row];
            && (IdsAgree(rows, rows) <==> IdsAgree(front, front) && IdsAgree(front, [row]))
            && (RowsAgree(cursor, rows, rows) <==> RowsAgree(cursor, front, front) && RowsAgree(cursor, front, [row]))
  {
    var rows := front + [row];
    assert forall x, y :: SameId(x, y) == SameId(y, x);
    assert forall x, y :: SameRow(cursor, x, y) == SameRow(cursor, y, x);
  }

  lemma StreamOneMore(front: seq<Row>, row: Row, instance: Option<string>)
    ensures var rows := front + [row];
            && (AllLegible(rows) <==> AllLegible(front) && Legible(row))
            && (OneStream(rows, HomeFor(rows, instance)) <==>
                  OneStream(front, HomeFor(front, instance)) && Some(HomeOf(row)) == HomeFor(rows, instance))
  {
    var rows := front + [row];
    assert row in rows;
    assert front != [] ==> HomeFor(front, instance) == HomeFor(rows, instance);
  }

  lemma AcceptableOneMore(cursor: int, front: seq<Row>, row: Row, instance: Option<string>)
    ensures Acceptable(cursor, front + [row], instance) <==>
              Acceptable(cursor, front, instance) && Fits(cursor, front, row, instance)
  {
    GapOneMore(cursor, front, row);
    AgreeOneMore(cursor, front, row);
    StreamOneMore(front, row, instance);
  }

  lemma {:induction false} FoldMeaning(cursor: int, rows: seq<Row>, instance: Option<string>)
    ensures Fold(cursor, rows, instance).Ok? <==> Acceptable(cursor, rows, instance)
    ensures Fold(cursor, rows, instance).Ok? ==> Tracks(cursor, rows, instance, Fold(cursor, rows, instance).value)
    decreases |rows|
  {
    if rows != [] {
      var front, row := rows[..|rows| - 1], rows[|rows| - 1];
      assert rows == front + [row];
      FoldMeaning(cursor, front, instance);
      AcceptableOneMore(cursor, front, row, instance);
      if Fold(cursor, front, instance).Ok? {
        StepMeaning(cursor, front, row, instance, Fold(cursor, front, instance).value);
      }
    }
  }

  predicate InRange(cursor: int, rows: seq<Row>) {
    0 <= cursor <= MAX && |rows| <= PAGE
  }

  /** A page is accepted exactly when it is acceptable as a whole, and then exactly the rows beyond the cursor are returned. */
  lemma MergeMeaning(cursor: int, rows: seq<Row>, instance: Option<string>)
    ensures var r := Merged(cursor, rows, instance);
            && (r.Ok? <==> InRange(cursor, rows) && Acceptable(cursor, rows, instance))
            && (r.Ok? ==> r.value.0 == cursor + |r.value.1| && Collects(cursor, rows, r.value.1))
  {
    FoldMeaning(cursor, rows, instance);
  }

  // ---------------------------------------------------------------- the two implementations

  /** `seen` has exactly the rows taken, under their sequence numbers. */
  ghost predicate Seen(cursor: int, seen: map<int, Row>, news: seq<Row>) {
    && (forall n :: n in seen <==> cursor < n <= cursor + |news|)
    && (forall n :: n in seen ==> seen[n] == news[n - cursor - 1])
  }

  lemma FoldStep(cursor: int, rows: seq<Row>, instance: Option<string>, i: nat)
    requires i < |rows|
    ensures Fold(cursor, rows[..i + 1], instance) ==
              match Fold(cursor, rows[..i], instance)
              case Err(code) => Err(code)
              case Ok(p) => Step(cursor, p, rows[i])
  {
    assert rows[..i + 1][..i] == rows[..i];
  }

  /** The first refused row decides. */
  lemma {:induction false} FoldStops(cursor: int, rows: seq<Row>, instance: Option<string>, i: nat)
    requires i <= |rows| && Fold(cursor, rows[..i], instance).Err?
    ensures Fold(cursor, rows, instance) == Fold(cursor, rows[..i], instance)
    decreases |rows| - i
  {
    if i == |rows| {
      assert rows[..i] == rows;
    } else {
      FoldStep(cursor, rows, instance, i);
      FoldStops(cursor, rows, instance, i + 1);
    }
  }

  /** The first `i` rows are accepted, with this progress. */
  ghost predicate Through(cursor: int, rows: seq<Row>, instance: Option<string>, i: nat, p: Progress) {
    i <= |rows| && Fold(cursor, rows[..i], instance) == Ok(p)
  }

  lemma Refused(cursor: int, rows: seq<Row>, instance: Option<string>, i: nat, p: Progress)
    requires InRange(cursor, rows) && i < |rows| && Through(cursor, rows, instance, i, p) && Step(cursor, p, rows[i]).Err?
    ensures Merged(cursor, rows, instance) == Err(Step(cursor, p, rows[i]).code)
  {
    FoldStep(cursor, rows, instance, i);
    FoldStops(cursor, rows, instance, i + 1);
  }

  lemma Accepted(cursor: int, rows: seq<Row>, instance: Option<string>, i: nat, p: Progress)
    requires i < |rows| && Through(cursor, rows, instance, i, p) && Step(cursor, p, rows[i]).Ok?
    ensures Through(cursor, rows, instance, i + 1, Step(cursor, p, rows[i]).value)
  {
    FoldStep(cursor, rows, instance, i);
  }

  lemma ThroughAll(cursor: int, rows: seq<Row>, instance: Option<string>, p: Progress)
    requires InRange(cursor, rows) && Through(cursor, rows, instance, |rows|, p)
    ensures Merged(cursor, rows, instance) == Ok((cursor + |p.news|, p.news))
  {
    assert rows[..|rows|] == rows;
  }

  lemma SeenMore(cursor: int, seen: map<int, Row>, news: seq<Row>, row: Row)
    requires Seen(cursor, seen, news)
    ensures Seen(cursor, seen[cursor + |news| + 1 := row], news + [row])
  {
  }

  /** The rows taken once, by sequence number: `None` when this one contradicts them or leaves a gap. */
  method Take(cursor: int, seen: map<int, Row>, news: seq<Row>, row: Row) returns (r: Option<(map<int, Row>, seq<Row>)>)
    requires Seen(cursor, seen, news)
    ensures r.Some? <==> Place(cursor, news, row).Some?
    ensures r.Some? ==> Seen(cursor, r.value.0, r.value.1) && Some(r.value.1) == Place(cursor, news, row)
  {
    var n := SeqNo(row);
    if n <= cursor { return Some((seen, news)); }
    if n in seen { return if seen[n] == row then Some((seen, news)) else None; }
    if n != cursor + |news| + 1 { return None; }
    SeenMore(cursor, seen, news, row);
    return Some((seen[n := row], news + [row]));
  }

  method MergeEvents(cursor: int, events: seq<Row>, instance: Option<string>) returns (r: Merge)
    ensures r == Merged(cursor, events, instance)
  {
    if !(0 <= cursor <= MAX) || |events| > PAGE { return Err("invalid-request"); }
    var news: seq<Row>, seen: map<int, Row>, ids: map<string, int>, expected := [], map[], map[], instance;
    for i := 0 to |events|
      invariant Through(cursor, events, instance, i, Progress(expected, ids, news)) && Seen(cursor, seen, news)
    {
      var event := events[i];
      ghost var p := Progress(expected, ids, news);
      var defect := Defect(event, expected);
      if defect.Some? {
        Refused(cursor, events, instance, i, p);
        return Err(defect.value);
      }
      expected := Some(HomeOf(event));
      var taken := Take(cursor, seen, news, event);
      if (IdOf(event) in ids && ids[IdOf(event)] != SeqNo(event)) || taken.None? {
        Refused(cursor, events, instance, i, p);
        return Err("event-gap");
      }
      ids := ids[IdOf(event) := SeqNo(event)];
      seen, news := taken.value.0, taken.value.1;
      Accepted(cursor, events, instance, i, p);
    }
    ThroughAll(cursor, events, instance, Progress(expected, ids, news));
    return Ok((cursor + |news|, news));
  }

  datatype EventPage = EventPage(cursor: int, events: seq<Row>, reload: bool)

  /** A refused page asks for a reload. */
  function PageOf(r: Merge): EventPage {
    match r
    case Ok(v) => EventPage(v.0, v.1, false)
    case Err(_) => EventPage(0, [], true)
  }

  method Consume(cursor: int, rows: seq<Row>, instance: Option<string>) returns (page: EventPage)
    ensures page == PageOf(Merged(cursor, rows, instance))
  {
    var refused := EventPage(0, [], true);
    if !Safe(Number(cursor), 0) || |rows| > PAGE { return refused; }
    var news: seq<Row>, seen: map<int, Row>, identities: map<string, int>, expected := [], map[], map[], instance;
    for i := 0 to |rows|
      invariant Through(cursor, rows, instance, i, Progress(expected, identities, news)) && Seen(cursor, seen, news)
    {
      var event := rows[i];
      ghost var p := Progress(expected, identities, news);
      DefectMeaning(event, expected);
      if !Legible(event) || (expected.Some? && HomeOf(event) != expected.value) {
        Refused(cursor, rows, instance, i, p);
        return refused;
      }
      if expected.None? { expected := Some(HomeOf(event)); }
      var taken := Take(cursor, seen, news, event);
      if (IdOf(event) in identities && identities[IdOf(event)] != SeqNo(event)) || taken.None? {
        Refused(cursor, rows, instance, i, p);
        return refused;
      }
      identities := identities[IdOf(event) := SeqNo(event)];
      seen, news := taken.value.0, taken.value.1;
      Accepted(cursor, rows, instance, i, p);
    }
    ThroughAll(cursor, rows, instance, Progress(expected, identities, news));
    return EventPage(cursor + |news|, news, false);
  }
}
