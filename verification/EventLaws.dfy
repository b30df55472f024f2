/** Merging page after page: how merges compose, and what a client of one server log accumulates. */
module EventLaws {
  import opened Basics
  import opened Events

  lemma CollectsUnique(cursor: int, rows: seq<Row>, one: seq<Row>, other: seq<Row>)
    requires Collects(cursor, rows, one) && Collects(cursor, rows, other)
    ensures one == other
  {
    NoLonger(cursor, rows, one, other);
    NoLonger(cursor, rows, other, one);
  }

  lemma NoLonger(cursor: int, rows: seq<Row>, one: seq<Row>, other: seq<Row>)
    requires Collects(cursor, rows, one) && Collects(cursor, rows, other)
    ensures |one| <= |other| && forall k :: 0 <= k < |one| ==> one[k] == other[k]
  {
    forall k | 0 <= k < |one| ensures k < |other| && one[k] == other[k] {
      assert Collected(cursor, one[k], other);
    }
    if one != [] {
      var last := one[|one| - 1];
      assert |one| - 1 < |other|;
    }
  }

  /** Any rows of the log, in any order, any number of times. */
  ghost predicate Drawn(log: seq<Row>, page: seq<Row>) {
    forall x {:trigger x in page} :: x in page ==> x in log
  }

  // ---------------------------------------------------------------- two pages as one

  /** What two accepted pages may still contradict each other in. */
  ghost predicate Compatible(cursor: int, xs: seq<Row>, ys: seq<Row>, instance: Option<string>) {
    && (xs != [] && ys != [] ==> HomeFor(xs, instance) == HomeFor(ys, instance))
    && IdsAgree(xs, ys) && RowsAgree(cursor, xs, ys)
  }

  lemma StreamParts(xs: seq<Row>, ys: seq<Row>, instance: Option<string>)
    ensures OneStream(xs + ys, HomeFor(xs + ys, instance)) <==>
              && OneStream(xs, HomeFor(xs, instance)) && OneStream(ys, HomeFor(ys, instance))
              && (xs != [] && ys != [] ==> HomeFor(xs, instance) == HomeFor(ys, instance))
    ensures AllLegible(xs + ys) <==> AllLegible(xs) && AllLegible(ys)
  {
    assert xs != [] ==> xs[0] in xs + ys;
    assert ys != [] ==> ys[0] in xs + ys && Some(HomeOf(ys[0])) == HomeFor(ys, None);
  }

  lemma IdParts(xs: seq<Row>, ys: seq<Row>)
    ensures IdsAgree(xs + ys, xs + ys) <==> IdsAgree(xs, xs) && IdsAgree(ys, ys) && IdsAgree(xs, ys)
  {
    assert forall x, y :: SameId(x, y) == SameId(y, x);
  }

  lemma RowParts(cursor: int, xs: seq<Row>, ys: seq<Row>)
    ensures RowsAgree(cursor, xs + ys, xs + ys) <==>
              RowsAgree(cursor, xs, xs) && RowsAgree(cursor, ys, ys) && RowsAgree(cursor, xs, ys)
  {
    assert forall x, y :: SameRow(cursor, x, y) == SameRow(cursor, y, x);
  }

  /** Rows the first page already brought cannot differ within the second. */
  lemma RowsAgreeAbove(cursor: int, xs: seq<Row>, ys: seq<Row>, news: seq<Row>)
    requires Collects(cursor, xs, news) && RowsAgree(cursor, xs, ys)
    ensures RowsAgree(cursor, ys, ys) <==> RowsAgree(cursor + |news|, ys, ys)
  {
    forall x, y | x in ys && y in ys ensures SameRow(cursor, x, y) <==> SameRow(cursor + |news|, x, y) {
      if SeqNo(x) == SeqNo(y) && cursor < SeqNo(x) <= cursor + |news| {
        var before := news[SeqNo(x) - cursor - 1];
        assert SameRow(cursor, before, x) && SameRow(cursor, before, y);
      }
    }
  }

  lemma PrecededAfter(cursor: int, xs: seq<Row>, before: seq<Row>, news: seq<Row>, n: int)
    requires Collects(cursor, xs, news)
    ensures Preceded(cursor, xs + before, n) <==> Preceded(cursor + |news|, before, n)
  {
    var rows, top := xs + before, cursor + |news|;
    if cursor + 1 < n <= top + 1 {
      assert news[n - cursor - 2] in rows;
    }
    forall x | x in xs ensures SeqNo(x) <= top || SeqNo(x) <= cursor {
      assert Collected(cursor, x, news);
    }
    forall x | x in before ensures x in rows {}
  }

  lemma GapParts(cursor: int, xs: seq<Row>, ys: seq<Row>, news: seq<Row>)
    requires Collects(cursor, xs, news)
    ensures NoGap(cursor, xs + ys) <==> NoGap(cursor, xs) && NoGap(cursor + |news|, ys)
  {
    var rows := xs + ys;
    forall i: nat | i < |xs| ensures NoGapAt(cursor, rows, i) <==> NoGapAt(cursor, xs, i) {
      assert rows[..i] == xs[..i];
    }
    forall i: nat {:trigger NoGapAt(cursor + |news|, ys, i)} | i < |ys|
      ensures NoGapAt(cursor, rows, |xs| + i) <==> NoGapAt(cursor + |news|, ys, i) {
      assert rows[..|xs| + i] == xs + ys[..i];
      PrecededAfter(cursor, xs, ys[..i], news, SeqNo(ys[i]));
    }
    if NoGap(cursor, xs) && NoGap(cursor + |news|, ys) {
      forall i: nat | i < |rows| ensures NoGapAt(cursor, rows, i) {
        if i >= |xs| {
          assert NoGapAt(cursor + |news|, ys, i - |xs|);
        } else {
          assert NoGapAt(cursor, xs, i);
        }
      }
    }
  }

  lemma CollectsBoth(cursor: int, xs: seq<Row>, ys: seq<Row>, a: seq<Row>, b: seq<Row>)
    requires Collects(cursor, xs, a) && Collects(cursor + |a|, ys, b) && RowsAgree(cursor, xs, ys)
    ensures Collects(cursor, xs + ys, a + b)
  {
    forall x {:trigger Collected(cursor, x, a + b)} | x in xs + ys ensures Collected(cursor, x, a + b) {
      if x in xs {
        assert Collected(cursor, x, a);
      } else {
        assert Collected(cursor + |a|, x, b);
        if cursor < SeqNo(x) <= cursor + |a| {
          assert SameRow(cursor, a[SeqNo(x) - cursor - 1], x);
        }
      }
    }
  }

  lemma AcceptableParts(cursor: int, xs: seq<Row>, ys: seq<Row>, instance: Option<string>, news: seq<Row>)
    requires Collects(cursor, xs, news)
    ensures Acceptable(cursor, xs + ys, instance) <==>
              && Acceptable(cursor, xs, instance) && Acceptable(cursor + |news|, ys, instance)
              && Compatible(cursor, xs, ys, instance)
  {
    StreamParts(xs, ys, instance);
    IdParts(xs, ys);
    RowParts(cursor, xs, ys);
    GapParts(cursor, xs, ys, news);
    if RowsAgree(cursor, xs, ys) {
      RowsAgreeAbove(cursor, xs, ys, news);
    }
  }

  /** Every prefix of an acceptable page is acceptable. */
  lemma {:induction false} AcceptablePrefix(cursor: int, xs: seq<Row>, ys: seq<Row>, instance: Option<string>)
    requires Acceptable(cursor, xs + ys, instance)
    ensures Acceptable(cursor, xs, instance)
    decreases |ys|
  {
    if ys == [] {
      assert xs + ys == xs;
    } else {
      var last := |ys| - 1;
      assert xs + ys == xs + ys[..last] + [ys[last]];
      AcceptableOneMore(cursor, xs + ys[..last], ys[last], instance);
      AcceptablePrefix(cursor, xs, ys[..last], instance);
    }
  }

  lemma CursorStaysSafe(cursor: int, rows: seq<Row>, news: seq<Row>)
    requires cursor <= MAX && AllLegible(rows) && Collects(cursor, rows, news)
    ensures cursor + |news| <= MAX
  {
    if news != [] {
      assert Legible(news[|news| - 1]);
    }
  }

  lemma MergedIs(cursor: int, rows: seq<Row>, instance: Option<string>, news: seq<Row>)
    requires InRange(cursor, rows) && Acceptable(cursor, rows, instance) && Collects(cursor, rows, news)
    ensures Merged(cursor, rows, instance) == Ok((cursor + |news|, news))
  {
    MergeMeaning(cursor, rows, instance);
    CollectsUnique(cursor, rows, Merged(cursor, rows, instance).value.1, news);
  }

  lemma FoldPrefix(cursor: int, xs: seq<Row>, ys: seq<Row>, instance: Option<string>)
    requires Fold(cursor, xs + ys, instance).Ok?
    ensures Fold(cursor, xs, instance).Ok?
  {
    FoldMeaning(cursor, xs + ys, instance);
    AcceptablePrefix(cursor, xs, ys, instance);
    FoldMeaning(cursor, xs, instance);
  }

  lemma FoldParts(cursor: int, xs: seq<Row>, ys: seq<Row>, instance: Option<string>)
    requires Fold(cursor, xs, instance).Ok?
    ensures var top := cursor + |Fold(cursor, xs, instance).value.news|;
            Fold(cursor, xs + ys, instance).Ok? <==> Fold(top, ys, instance).Ok? && Compatible(cursor, xs, ys, instance)
  {
    var news := Fold(cursor, xs, instance).value.news;
    FoldMeaning(cursor, xs, instance);
    FoldMeaning(cursor, xs + ys, instance);
    FoldMeaning(cursor + |news|, ys, instance);
    AcceptableParts(cursor, xs, ys, instance, news);
  }

  lemma FoldNews(cursor: int, rows: seq<Row>, instance: Option<string>)
    requires Fold(cursor, rows, instance).Ok?
    ensures Collects(cursor, rows, Fold(cursor, rows, instance).value.news)
    ensures cursor <= MAX ==> cursor + |Fold(cursor, rows, instance).value.news| <= MAX
  {
    FoldMeaning(cursor, rows, instance);
    if cursor <= MAX {
      CursorStaysSafe(cursor, rows, Fold(cursor, rows, instance).value.news);
    }
  }

  lemma NewsParts(cursor: int, xs: seq<Row>, ys: seq<Row>, instance: Option<string>)
    requires Fold(cursor, xs, instance).Ok? && Fold(cursor, xs + ys, instance).Ok?
    requires Fold(cursor + |Fold(cursor, xs, instance).value.news|, ys, instance).Ok?
    ensures var a := Fold(cursor, xs, instance).value.news;
            Fold(cursor, xs + ys, instance).value.news == a + Fold(cursor + |a|, ys, instance).value.news
  {
    var a := Fold(cursor, xs, instance).value.news;
    var b := Fold(cursor + |a|, ys, instance).value.news;
    FoldParts(cursor, xs, ys, instance);
    FoldNews(cursor, xs, instance);
    FoldNews(cursor + |a|, ys, instance);
    FoldNews(cursor, xs + ys, instance);
    CollectsBoth(cursor, xs, ys, a, b);
    CollectsUnique(cursor, xs + ys, Fold(cursor, xs + ys, instance).value.news, a + b);
  }

  lemma WholeSplits(cursor: int, xs: seq<Row>, ys: seq<Row>, instance: Option<string>)
    requires Fold(cursor, xs + ys, instance).Ok? && 0 <= cursor <= MAX
    ensures Fold(cursor, xs, instance).Ok?
    ensures var a := Fold(cursor, xs, instance).value.news;
            cursor + |a| <= MAX && Fold(cursor + |a|, ys, instance).Ok?
  {
    FoldPrefix(cursor, xs, ys, instance);
    FoldParts(cursor, xs, ys, instance);
    FoldNews(cursor, xs, instance);
  }

  lemma MergedByFold(cursor: int, rows: seq<Row>, instance: Option<string>, news: seq<Row>)
    requires InRange(cursor, rows) && Fold(cursor, rows, instance).Ok? && Fold(cursor, rows, instance).value.news == news
    ensures Merged(cursor, rows, instance) == Ok((cursor + |news|, news))
  {
  }

  lemma WholeMerges(cursor: int, xs: seq<Row>, ys: seq<Row>, instance: Option<string>) returns (a: seq<Row>, b: seq<Row>)
    requires InRange(cursor, xs + ys) && Fold(cursor, xs + ys, instance).Ok?
    ensures Merged(cursor, xs, instance) == Ok((cursor + |a|, a))
    ensures Merged(cursor + |a|, ys, instance) == Ok((cursor + |a| + |b|, b))
    ensures Merged(cursor, xs + ys, instance) == Ok((cursor + |a| + |b|, a + b))
  {
    WholeSplits(cursor, xs, ys, instance);
    NewsParts(cursor, xs, ys, instance);
    a := Fold(cursor, xs, instance).value.news;
    b := Fold(cursor + |a|, ys, instance).value.news;
    MergedByFold(cursor, xs, instance, a);
    MergedByFold(cursor + |a|, ys, instance, b);
    MergedByFold(cursor, xs + ys, instance, a + b);
  }

  /** One page of two parts is accepted exactly when it is not too large, the first part is accepted, then the second from the
      cursor reached, and the two do not contradict each other; then both ways lead to the same cursor and the same events. */
  lemma MergeSplit(cursor: int, xs: seq<Row>, ys: seq<Row>, instance: Option<string>)
    ensures var first := Merged(cursor, xs, instance);
            var whole := Merged(cursor, xs + ys, instance);
            && (whole.Ok? <==> && |xs| + |ys| <= PAGE && first.Ok? && Merged(first.value.0, ys, instance).Ok?
                               && Compatible(cursor, xs, ys, instance))
            && (whole.Ok? ==> var second := Merged(first.value.0, ys, instance);
                              whole == Ok((second.value.0, first.value.1 + second.value.1)))
  {
    if Merged(cursor, xs + ys, instance).Ok? {
      var a, b := WholeMerges(cursor, xs, ys, instance);
    }
    if Merged(cursor, xs, instance).Ok? && |xs| + |ys| <= PAGE {
      FoldParts(cursor, xs, ys, instance);
      FoldNews(cursor, xs, instance);
    }
  }

  lemma RepeatIsAcceptable(cursor: int, rows: seq<Row>, news: seq<Row>, again: seq<Row>, instance: Option<string>)
    requires Acceptable(cursor, rows, instance) && Collects(cursor, rows, news) && Drawn(rows, again)
    ensures Acceptable(cursor + |news|, again, instance) && Collects(cursor + |news|, again, [])
  {
    var top := cursor + |news|;
    forall x | x in again ensures SeqNo(x) <= top {
      assert Collected(cursor, x, news);
    }
    forall i: nat | i < |again| ensures NoGapAt(top, again, i) {
      assert SeqNo(again[i]) <= top;
    }
    assert again != [] ==> again[0] in again && Some(HomeOf(again[0])) == HomeFor(rows, instance);
  }

  lemma FoldRepeat(cursor: int, rows: seq<Row>, again: seq<Row>, instance: Option<string>)
    requires Fold(cursor, rows, instance).Ok? && Drawn(rows, again)
    ensures var r := Fold(cursor + |Fold(cursor, rows, instance).value.news|, again, instance);
            r.Ok? && r.value.news == []
  {
    var news := Fold(cursor, rows, instance).value.news;
    FoldMeaning(cursor, rows, instance);
    RepeatIsAcceptable(cursor, rows, news, again, instance);
    var r := Fold(cursor + |news|, again, instance);
    FoldMeaning(cursor + |news|, again, instance);
    FoldNews(cursor + |news|, again, instance);
    CollectsUnique(cursor + |news|, again, r.value.news, []);
  }

  /** A page of nothing but rows already merged, in any order and number, changes nothing. */
  lemma RepeatIsNoOp(cursor: int, rows: seq<Row>, again: seq<Row>, instance: Option<string>)
    requires Merged(cursor, rows, instance).Ok? && |again| <= PAGE && Drawn(rows, again)
    ensures var top := Merged(cursor, rows, instance).value.0;
            Merged(top, again, instance) == Ok((top, []))
  {
    FoldRepeat(cursor, rows, again, instance);
    FoldNews(cursor, rows, instance);
  }

  // ---------------------------------------------------------------- one server log

  /** The log of one instance: numbered from 1 without gaps, every identifier once. */
  ghost predicate IsLog(log: seq<Row>, home: string) {
    && (forall k :: 0 <= k < |log| ==> Legible(log[k]) && SeqNo(log[k]) == k + 1 && HomeOf(log[k]) == home)
    && (forall k, l :: 0 <= k < l < |log| ==> IdOf(log[k]) != IdOf(log[l]))
  }

  ghost predicate ForHome(instance: Option<string>, home: string) {
    instance.Some? ==> instance.value == home
  }

  lemma DrawnRow(log: seq<Row>, home: string, row: Row)
    requires IsLog(log, home) && row in log
    ensures 1 <= SeqNo(row) <= |log| && log[SeqNo(row) - 1] == row && Legible(row) && HomeOf(row) == home
  {
    var k :| 0 <= k < |log| && log[k] == row;
  }

  lemma DrawnAgrees(log: seq<Row>, home: string, page: seq<Row>, cursor: int, instance: Option<string>)
    requires IsLog(log, home) && Drawn(log, page) && ForHome(instance, home)
    ensures AllLegible(page) && OneStream(page, HomeFor(page, instance)) && IdsAgree(page, page) && RowsAgree(cursor, page, page)
  {
    forall x | x in page ensures Legible(x) && HomeOf(x) == home && 1 <= SeqNo(x) <= |log| && log[SeqNo(x) - 1] == x {
      DrawnRow(log, home, x);
    }
    assert page != [] ==> HomeOf(page[0]) == home;
    forall x, y | x in page && y in page && IdOf(x) == IdOf(y) ensures SeqNo(x) == SeqNo(y) {
      assert IdOf(log[SeqNo(x) - 1]) == IdOf(log[SeqNo(y) - 1]);
    }
  }

  lemma CollectsSlice(log: seq<Row>, home: string, page: seq<Row>, cursor: nat, news: seq<Row>)
    requires IsLog(log, home) && Drawn(log, page) && cursor <= |log| && Collects(cursor, page, news)
    ensures cursor + |news| <= |log| && news == log[cursor..cursor + |news|]
  {
    forall k | 0 <= k < |news| ensures cursor + k < |log| && news[k] == log[cursor + k] {
      DrawnRow(log, home, news[k]);
    }
    if news != [] {
      var last := news[|news| - 1];
      assert cursor + |news| - 1 < |log|;
    }
  }

  lemma OneStreamInFull(rows: seq<Row>, instance: Option<string>)
    requires forall x :: x in rows ==> x.Row? && x.id.Text? && x.sequence.Number? && x.instance.Text?
    ensures OneStream(rows, HomeFor(rows, instance)) <==>
              forall x :: x in rows ==> x.instance == if instance.Some? then Text(instance.value) else rows[0].instance
  {
    if rows != [] { assert rows[0] in rows; }
    forall x | x in rows
      ensures Some(HomeOf(x)) == HomeFor(rows, instance)
              <==> x.instance == if instance.Some? then Text(instance.value) else rows[0].instance
    {
    }
  }

  lemma AgreementInFull(cursor: int, rows: seq<Row>)
    requires forall x :: x in rows ==> x.Row? && x.id.Text? && x.sequence.Number? && x.instance.Text?
    ensures IdsAgree(rows, rows) <==> forall x, y :: x in rows && y in rows && x.id == y.id ==> x.sequence == y.sequence
    ensures RowsAgree(cursor, rows, rows) <==>
              forall x, y :: x in rows && y in rows && x.sequence == y.sequence && x.sequence.n > cursor ==> x == y
  {
    forall x, y | x in rows && y in rows
      ensures SameId(x, y) <==> (x.id == y.id ==> x.sequence == y.sequence)
      ensures SameRow(cursor, x, y) <==> (x.sequence == y.sequence && x.sequence.n > cursor ==> x == y)
    {
    }
  }

  lemma NoGapInFull(cursor: int, rows: seq<Row>)
    requires forall x :: x in rows ==> x.Row? && x.id.Text? && x.sequence.Number? && x.instance.Text?
    ensures NoGap(cursor, rows) <==>
              forall i :: 0 <= i < |rows| && rows[i].sequence.n > cursor + 1 ==>
                exists j :: 0 <= j < i && rows[j].sequence.n == rows[i].sequence.n - 1
  {
    forall i | 0 <= i < |rows| ensures rows[i] in rows && SeqNo(rows[i]) == rows[i].sequence.n {}
    forall i: nat | i < |rows|
      ensures NoGapAt(cursor, rows, i) <==>
                (rows[i].sequence.n > cursor + 1 ==> exists j :: 0 <= j < i && rows[j].sequence.n == rows[i].sequence.n - 1)
    {
      var n := SeqNo(rows[i]);
      if j :| 0 <= j < i && rows[j].sequence.n == n - 1 {
        assert rows[..i][j] in rows[..i];
      }
      if x :| x in rows[..i] && SeqNo(x) == n - 1 {
        var j :| 0 <= j < i && rows[..i][j] == x;
        assert rows[j].sequence.n == n - 1;
      }
    }
  }

  /** What a client takes, field by field: well-formed rows of one instance, the expected one if any is, in which an identifier
      has one sequence number, a new sequence number has one row, and every new row but the next follows one before it. */
  lemma AcceptedInFull(cursor: int, rows: seq<Row>, instance: Option<string>)
    ensures Merged(cursor, rows, instance).Ok? <==>
      && 0 <= cursor <= MAX && |rows| <= PAGE
      && (forall x :: x in rows ==>
            && x.Row? && x.protocol == Text("ctflab-local") && x.version == Number(1)
            && x.sequence.Number? && 1 <= x.sequence.n <= MAX && x.generation.Number? && 1 <= x.generation.n <= MAX
            && x.revision.Number? && 0 <= x.revision.n <= MAX
            && UuidText(x.id) && UuidText(x.operation) && UuidText(x.instance)
            && x.state.Text? && x.state.s in STATES && x.stage.Text? && x.stage.s in STAGES
            && x.timestamp.Text? && |x.timestamp.s| <= 64)
      && (forall x :: x in rows ==> x.instance == if instance.Some? then Text(instance.value) else rows[0].instance)
      && (forall x, y :: x in rows && y in rows && x.id == y.id ==> x.sequence == y.sequence)
      && (forall x, y :: x in rows && y in rows && x.sequence == y.sequence && x.sequence.n > cursor ==> x == y)
      && (forall i :: 0 <= i < |rows| && rows[i].sequence.n > cursor + 1 ==>
            exists j :: 0 <= j < i && rows[j].sequence.n == rows[i].sequence.n - 1)
  {
    MergeMeaning(cursor, rows, instance);
    if AllLegible(rows) {
      forall x | x in rows ensures Legible(x) {}
      OneStreamInFull(rows, instance);
      AgreementInFull(cursor, rows);
      NoGapInFull(cursor, rows);
    }
  }

  /** A page drawn from the log is accepted exactly when it leaves no gap, and then yields exactly the slice of the log that
      follows the cursor. */
  lemma PageOfLog(log: seq<Row>, home: string, page: seq<Row>, cursor: nat, instance: Option<string>)
    requires IsLog(log, home) && Drawn(log, page) && ForHome(instance, home) && cursor <= |log| && InRange(cursor, page)
    ensures var r := Merged(cursor, page, instance);
            && (r.Ok? <==> NoGap(cursor, page))
            && (r.Ok? ==> cursor <= r.value.0 <= |log| && r.value.1 == log[cursor..r.value.0])
  {
    DrawnAgrees(log, home, page, cursor, instance);
    MergeMeaning(cursor, page, instance);
    var r := Merged(cursor, page, instance);
    if r.Ok? {
      CollectsSlice(log, home, page, cursor, r.value.1);
    }
  }

  /** A client's cursor and everything it has taken. A refused page changes nothing. */
  datatype Client = Client(cursor: int, timeline: seq<Row>)

  function Receive(c: Client, page: seq<Row>, instance: Option<string>): Client {
    match Merged(c.cursor, page, instance)
    case Ok(v) => Client(v.0, c.timeline + v.1)
    case Err(_) => c
  }

  function ReceiveAll(c: Client, pages: seq<seq<Row>>, instance: Option<string>): Client
    decreases |pages|
  {
    if pages == [] then c
    else Receive(ReceiveAll(c, pages[..|pages| - 1], instance), pages[|pages| - 1], instance)
  }

  /** Whatever pages arrive, overlapping, duplicated, with gaps or too large, the timeline is exactly a prefix of the log. */
  lemma {:induction false} TimelineIsPrefix(log: seq<Row>, home: string, pages: seq<seq<Row>>, instance: Option<string>)
    requires IsLog(log, home) && ForHome(instance, home) && forall i :: 0 <= i < |pages| ==> Drawn(log, pages[i])
    ensures var c := ReceiveAll(Client(0, []), pages, instance);
            0 <= c.cursor <= |log| && c.timeline == log[..c.cursor]
    decreases |pages|
  {
    if pages != [] {
      var front, page := pages[..|pages| - 1], pages[|pages| - 1];
      TimelineIsPrefix(log, home, front, instance);
      var c := ReceiveAll(Client(0, []), front, instance);
      if Merged(c.cursor, page, instance).Ok? {
        PageOfLog(log, home, page, c.cursor, instance);
        var top := Merged(c.cursor, page, instance).value.0;
        assert log[..c.cursor] + log[c.cursor..top] == log[..top];
      }
    }
  }

  lemma SliceHasNoGap(log: seq<Row>, home: string, a: nat, b: nat, cursor: nat)
    requires IsLog(log, home) && a <= cursor <= b <= |log|
    ensures NoGap(cursor, log[a..b])
  {
    var page := log[a..b];
    forall i: nat | i < |page| ensures NoGapAt(cursor, page, i) {
      if SeqNo(page[i]) > cursor + 1 {
        var before := page[..i][i - 1];
        assert before in page[..i] && before == log[a + i - 1];
      }
    }
  }

  lemma SliceCollects(log: seq<Row>, home: string, a: nat, b: nat, cursor: nat)
    requires IsLog(log, home) && a <= cursor <= b <= |log|
    ensures Collects(cursor, log[a..b], log[cursor..b])
  {
    var page, news := log[a..b], log[cursor..b];
    forall k | 0 <= k < |news| ensures SeqNo(news[k]) == cursor + k + 1 && news[k] in page {
      assert news[k] == log[cursor + k] == page[cursor - a + k];
    }
    forall x {:trigger Collected(cursor, x, news)} | x in page ensures Collected(cursor, x, news) {
      var i :| 0 <= i < |page| && page[i] == x;
      assert x == log[a + i];
    }
  }

  /** A run of consecutive rows that starts no later than the cursor is always accepted, and brings the client to its end. */
  lemma SliceAdvances(log: seq<Row>, home: string, a: nat, b: nat, cursor: nat, instance: Option<string>)
    requires IsLog(log, home) && ForHome(instance, home) && a <= cursor <= b <= |log| && b - a <= PAGE && cursor <= MAX
    ensures Merged(cursor, log[a..b], instance) == Ok((b as int, log[cursor..b]))
  {
    SliceHasNoGap(log, home, a, b, cursor);
    SliceCollects(log, home, a, b, cursor);
    DrawnAgrees(log, home, log[a..b], cursor, instance);
    MergedIs(cursor, log[a..b], instance, log[cursor..b]);
  }
}
