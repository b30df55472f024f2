/** The identifier proposed for a new image profile: derived from a file name, valid, and not yet in use. */
module ProfileIds {
  import opened Decimal
  import opened Pieces
  import opened FreeNames

  const WIDTH := 49
  const FALLBACK := "x86-lab"
  const MAX_INT := 0x7fff_ffff_ffff_ffff

  predicate IsIdChar(c: char) {
    'a' <= c <= 'z' || IsDigit(c) || c == '-'
  }

  predicate Valid(id: string) {
    && 1 <= |id| <= WIDTH && id[0] != '-' && id[|id| - 1] != '-'
    && forall i :: 0 <= i < |id| ==> IsIdChar(id[i])
  }

  // ---------------------------------------------------------------- the suggestion

  function Lower(c: char): char {
    if 'A' <= c <= 'Z' then c - 'A' + 'a' else c
  }

  /** Letters and digits in lower case, everything else a dash. */
  function Normalized(stem: string): (r: string)
    ensures |r| == |stem|
  {
    seq(|stem|, i requires 0 <= i < |stem| =>
      var c := Lower(stem[i]);
      if 'a' <= c <= 'z' || IsDigit(c) then c else '-')
  }

  function NonEmpty(parts: seq<string>): seq<string> {
    if parts == [] then []
    else (if parts[0] == "" then [] else [parts[0]]) + NonEmpty(parts[1..])
  }

  function Compact(s: string): string {
    var parts := NonEmpty(Split(s, '-'));
    if parts == [] then "" else Join(parts, '-')
  }

  function Prefix(s: string, n: nat): string {
    if |s| > n then s[..n] else s
  }

  function TrimFront(s: string): string {
    if s != "" && s[0] == '-' then TrimFront(s[1..]) else s
  }

  function TrimBack(s: string): string {
    if s != "" && s[|s| - 1] == '-' then TrimBack(s[..|s| - 1]) else s
  }

  function Trimmed(s: string): string {
    TrimBack(TrimFront(Prefix(s, WIDTH)))
  }

  /** `stem` is the file name without its directory and its extension. */
  function Suggested(stem: string): string {
    var trimmed := Trimmed(Compact(Normalized(stem)));
    if trimmed == "" then FALLBACK else trimmed
  }

  /** Identifier characters, no two dashes in a row. */
  predicate Tidy(s: string) {
    && (forall i :: 0 <= i < |s| ==> IsIdChar(s[i]))
    && (forall i :: 0 <= i < |s| - 1 ==> s[i] != '-' || s[i + 1] != '-')
  }

  predicate NoEdges(s: string) {
    s != "" ==> s[0] != '-' && s[|s| - 1] != '-'
  }

  predicate Words(parts: seq<string>) {
    forall i :: 0 <= i < |parts| ==> parts[i] != "" && '-' !in parts[i] && forall k :: 0 <= k < |parts[i]| ==> IsIdChar(parts[i][k])
  }

  lemma {:induction false} SplitWords(s: string)
    requires forall i :: 0 <= i < |s| ==> IsIdChar(s[i])
    ensures Words(NonEmpty(Split(s, '-')))
    ensures '-' !in Split(s, '-')[0] && forall k :: 0 <= k < |Split(s, '-')[0]| ==> IsIdChar(Split(s, '-')[0][k])
    ensures Words(NonEmpty(Split(s, '-')[1..]))
    decreases |s|
  {
    if s != "" {
      SplitWords(s[1..]);
      var rest, parts := Split(s[1..], '-'), Split(s, '-');
      if s[0] == '-' {
        assert parts[1..] == rest;
      } else {
        assert parts[1..] == rest[1..];
      }
    }
  }

  lemma {:induction false} JoinedWords(parts: seq<string>)
    requires parts != [] && Words(parts)
    ensures Tidy(Join(parts, '-')) && NoEdges(Join(parts, '-')) && Join(parts, '-') != ""
    decreases |parts|
  {
    if |parts| > 1 {
      JoinedWords(parts[1..]);
      var rest := Join(parts[1..], '-');
      var r := parts[0] + ['-'] + rest;
      assert r == Join(parts, '-');
      forall i | 0 <= i < |r| - 1 ensures r[i] != '-' || r[i + 1] != '-' {
        if i > |parts[0]| {
          assert r[i] == rest[i - |parts[0]| - 1] && r[i + 1] == rest[i - |parts[0]|];
        }
      }
    }
  }

  lemma {:induction false} TrimFrontTidy(s: string)
    requires Tidy(s)
    ensures Tidy(TrimFront(s)) && |TrimFront(s)| <= |s| && (TrimFront(s) != "" ==> TrimFront(s)[0] != '-')
    decreases |s|
  {
    if s != "" && s[0] == '-' {
      TrimFrontTidy(s[1..]);
    }
  }

  lemma {:induction false} TrimBackTidy(s: string)
    requires Tidy(s) && (s != "" ==> s[0] != '-')
    ensures Tidy(TrimBack(s)) && |TrimBack(s)| <= |s| && NoEdges(TrimBack(s))
    decreases |s|
  {
    if s != "" && s[|s| - 1] == '-' {
      TrimBackTidy(s[..|s| - 1]);
    }
  }

  lemma TrimmedTidy(s: string)
    requires Tidy(s)
    ensures Tidy(Trimmed(s)) && |Trimmed(s)| <= WIDTH && NoEdges(Trimmed(s))
  {
    TrimFrontTidy(Prefix(s, WIDTH));
    TrimBackTidy(TrimFront(Prefix(s, WIDTH)));
  }

  lemma CompactTidy(s: string)
    requires forall i :: 0 <= i < |s| ==> IsIdChar(s[i])
    ensures Tidy(Compact(s))
  {
    SplitWords(s);
    var parts := NonEmpty(Split(s, '-'));
    if parts != [] {
      JoinedWords(parts);
    }
  }

  /** Whatever the file is called, the suggestion is valid and tidy. */
  lemma SuggestedIsValid(stem: string)
    ensures Valid(Suggested(stem)) && Tidy(Suggested(stem))
  {
    CompactTidy(Normalized(stem));
    TrimmedTidy(Compact(Normalized(stem)));
    assert Valid(FALLBACK) && Tidy(FALLBACK);
  }

  lemma {:induction false} TidyPieces(s: string)
    requires Tidy(s) && (s != "" ==> s[|s| - 1] != '-')
    ensures var parts := Split(s, '-');
            (parts[0] == "" <==> s == "" || s[0] == '-') && forall i :: 1 <= i < |parts| ==> parts[i] != ""
    decreases |s|
  {
    if s != "" {
      var t := s[1..];
      if t != "" { assert t[|t| - 1] == s[|s| - 1]; }
      if s[0] == '-' { assert t[0] == s[1]; }
      TidyPieces(t);
    }
  }

  lemma {:induction false} NothingEmpty(parts: seq<string>)
    requires forall i :: 0 <= i < |parts| ==> parts[i] != ""
    ensures NonEmpty(parts) == parts
    decreases |parts|
  {
    if parts != [] {
      NothingEmpty(parts[1..]);
      assert parts == [parts[0]] + parts[1..];
    }
  }

  /** The suggestions are exactly the valid tidy identifiers, and each of them suggests itself. */
  lemma SuggestedFixedPoints(s: string)
    ensures Suggested(s) == s <==> Valid(s) && Tidy(s)
  {
    if Valid(s) && Tidy(s) {
      assert Normalized(s) == s by {
        assert forall i :: 0 <= i < |s| ==> IsIdChar(s[i]);
      }
      TidyPieces(s);
      NothingEmpty(Split(s, '-'));
      JoinSplit(s, '-');
    } else {
      SuggestedIsValid(s);
    }
  }

  // ---------------------------------------------------------------- what survives of the file name

  /** The same character, or the capital and the small form of one letter. */
  predicate SameButCase(a: char, b: char) {
    a == b || ('A' <= a <= 'Z' && b == a - 'A' + 'a') || ('A' <= b <= 'Z' && a == b - 'A' + 'a')
  }

  /** File names that differ only in the case of letters have the same suggestion. */
  lemma CaseIsIrrelevant(stem: string, other: string)
    requires |stem| == |other| && forall i :: 0 <= i < |stem| ==> SameButCase(stem[i], other[i])
    ensures Suggested(stem) == Suggested(other)
  {
    forall i | 0 <= i < |stem| ensures Normalized(stem)[i] == Normalized(other)[i] {
      assert SameButCase(stem[i], other[i]);
    }
    assert Normalized(stem) == Normalized(other);
  }

  /** The letters, in small form, and the digits, in their order. */
  function Letters(s: string): string {
    if s == "" then ""
    else
      var c := s[0];
      (if 'a' <= c <= 'z' || '0' <= c <= '9' then [c] else if 'A' <= c <= 'Z' then [c - 'A' + 'a'] else "") + Letters(s[1..])
  }

  function AllLetters(parts: seq<string>): string {
    if parts == [] then "" else Letters(parts[0]) + AllLetters(parts[1..])
  }

  lemma {:induction false} LettersConcat(s: string, t: string)
    ensures Letters(s + t) == Letters(s) + Letters(t)
    decreases |s|
  {
    if s == "" {
      assert s + t == t;
    } else {
      LettersConcat(s[1..], t);
      assert (s + t)[1..] == s[1..] + t;
    }
  }

  lemma {:induction false} LettersNormalized(stem: string)
    ensures Letters(Normalized(stem)) == Letters(stem)
    decreases |stem|
  {
    if stem != "" {
      LettersNormalized(stem[1..]);
      assert Normalized(stem)[1..] == Normalized(stem[1..]);
    }
  }

  lemma {:induction false} LettersSplit(s: string)
    ensures AllLetters(Split(s, '-')) == Letters(s)
    decreases |s|
  {
    if s != "" {
      LettersSplit(s[1..]);
      var rest, parts := Split(s[1..], '-'), Split(s, '-');
      if s[0] == '-' {
        assert parts[1..] == rest;
      } else {
        assert parts[1..] == rest[1..];
        LettersConcat([s[0]], rest[0]);
        LettersConcat([s[0]], s[1..]);
        assert [s[0]] + s[1..] == s;
      }
    }
  }

  lemma {:induction false} LettersNonEmpty(parts: seq<string>)
    ensures AllLetters(NonEmpty(parts)) == AllLetters(parts)
    decreases |parts|
  {
    if parts != [] {
      LettersNonEmpty(parts[1..]);
      if parts[0] == "" {
        assert NonEmpty(parts) == NonEmpty(parts[1..]);
      } else {
        assert NonEmpty(parts)[1..] == NonEmpty(parts[1..]);
      }
    }
  }

  lemma {:induction false} LettersJoin(parts: seq<string>)
    requires parts != []
    ensures Letters(Join(parts, '-')) == AllLetters(parts)
    decreases |parts|
  {
    if |parts| == 1 {
      assert parts[1..] == [];
    } else {
      LettersJoin(parts[1..]);
      LettersConcat(parts[0] + ['-'], Join(parts[1..], '-'));
      LettersConcat(parts[0], ['-']);
    }
  }

  lemma LettersCompact(s: string)
    ensures Letters(Compact(s)) == Letters(s)
  {
    var parts := Split(s, '-');
    LettersSplit(s);
    LettersNonEmpty(parts);
    if NonEmpty(parts) != [] {
      LettersJoin(NonEmpty(parts));
    }
  }

  /** The length that the parts have together, each with a separator. */
  function Weight(parts: seq<string>): nat {
    if parts == [] then 0 else |parts[0]| + 1 + Weight(parts[1..])
  }

  lemma {:induction false} SplitWeight(s: string)
    ensures var parts := Split(s, '-'); Weight(NonEmpty(parts)) <= |s| + if parts[0] == "" then 0 else 1
    decreases |s|
  {
    if s != "" {
      SplitWeight(s[1..]);
      var rest, parts := Split(s[1..], '-'), Split(s, '-');
      if s[0] == '-' {
        assert parts[1..] == rest && NonEmpty(parts) == NonEmpty(rest);
      } else {
        assert parts[1..] == rest[1..] && NonEmpty(parts)[1..] == NonEmpty(rest[1..]);
        if rest[0] == "" {
          assert NonEmpty(rest) == NonEmpty(rest[1..]);
        } else {
          assert NonEmpty(rest)[1..] == NonEmpty(rest[1..]);
        }
      }
    }
  }

  lemma {:induction false} JoinWeight(parts: seq<string>)
    requires parts != []
    ensures |Join(parts, '-')| + 1 == Weight(parts)
    decreases |parts|
  {
    if |parts| == 1 {
      assert parts[1..] == [];
    } else {
      JoinWeight(parts[1..]);
    }
  }

  lemma CompactIsNoLonger(s: string)
    ensures |Compact(s)| <= |s|
  {
    SplitWeight(s);
    if NonEmpty(Split(s, '-')) != [] {
      JoinWeight(NonEmpty(Split(s, '-')));
    }
  }

  lemma {:induction false} LettersTrimFront(s: string)
    ensures Letters(TrimFront(s)) == Letters(s)
    decreases |s|
  {
    if s != "" && s[0] == '-' {
      LettersTrimFront(s[1..]);
    }
  }

  lemma {:induction false} LettersTrimBack(s: string)
    ensures Letters(TrimBack(s)) == Letters(s)
    decreases |s|
  {
    if s != "" && s[|s| - 1] == '-' {
      LettersTrimBack(s[..|s| - 1]);
      LettersConcat(s[..|s| - 1], ['-']);
      assert s == s[..|s| - 1] + ['-'];
    }
  }

  lemma CompactEdges(s: string)
    requires forall i :: 0 <= i < |s| ==> IsIdChar(s[i])
    ensures var c := Compact(s); c != "" ==> c[0] != '-' && IsIdChar(c[0])
  {
    SplitWords(s);
    var parts := NonEmpty(Split(s, '-'));
    if parts != [] {
      JoinedWords(parts);
    }
  }

  lemma LettersPrefix(s: string, n: nat)
    requires n > 0 && (s != "" ==> s[0] != '-' && IsIdChar(s[0]))
    ensures Letters(Prefix(s, n)) <= Letters(s) && (s != "" ==> Letters(Prefix(s, n)) != "")
  {
    if |s| > n {
      LettersConcat(s[..n], s[n..]);
      assert s == s[..n] + s[n..];
    }
    if s != "" {
      assert Prefix(s, n)[0] == s[0];
    }
  }

  lemma LettersTrimmed(s: string)
    requires s != "" ==> s[0] != '-' && IsIdChar(s[0])
    ensures Letters(Trimmed(s)) <= Letters(s) && (|s| <= WIDTH ==> Letters(Trimmed(s)) == Letters(s))
    ensures Trimmed(s) == "" <==> s == ""
    ensures (Letters(Trimmed(s)) == "" <==> Letters(s) == "") && (Letters(s) == "" <==> s == "")
  {
    LettersPrefix(s, WIDTH);
    LettersTrimFront(Prefix(s, WIDTH));
    LettersTrimBack(TrimFront(Prefix(s, WIDTH)));
    if s != "" { assert Letters(s) != ""; }
  }

  /** The letters and digits of a file name, in small form and in their order, are those of its suggestion, up to the width; the
      fallback is suggested where there are none. */
  lemma LettersSurvive(stem: string)
    ensures Letters(stem) == "" ==> Suggested(stem) == FALLBACK
    ensures Letters(stem) != "" ==>
      && Letters(Suggested(stem)) != "" && Letters(Suggested(stem)) <= Letters(stem)
      && (|stem| <= WIDTH ==> Letters(Suggested(stem)) == Letters(stem))
  {
    var compact := Compact(Normalized(stem));
    LettersNormalized(stem);
    LettersCompact(Normalized(stem));
    CompactIsNoLonger(Normalized(stem));
    CompactEdges(Normalized(stem));
    LettersTrimmed(compact);
  }

  // ---------------------------------------------------------------- the free identifier

  function Suffix(index: nat): string {
    "-" + Text(index)
  }

  function Candidate(base: string, index: nat): string {
    (if |Suffix(index)| > WIDTH then "" else Prefix(base, WIDTH - |Suffix(index)|)) + Suffix(index)
  }

  function Series(base: string): nat -> string {
    (index: nat) => Candidate(base, index)
  }

  /** The base itself, or the first of its numbered variants from 2 on that is not in use. */
  function Available(base: string, existing: set<string>): string {
    if base !in existing then base else Candidate(base, First(Series(base), 2, |existing| + 3, existing))
  }

  predicate EndsAfterDash(s: string, tail: string) {
    '-' !in tail && |tail| < |s| && s[|s| - |tail|..] == tail && s[|s| - |tail| - 1] == '-'
  }

  lemma OneTail(s: string, x: string, y: string)
    requires EndsAfterDash(s, x) && EndsAfterDash(s, y)
    ensures x == y
  {
    assert forall k :: |s| - |x| <= k < |s| ==> s[k] == x[k - (|s| - |x|)];
    assert forall k :: |s| - |y| <= k < |s| ==> s[k] == y[k - (|s| - |y|)];
    assert |x| == |y|;
  }

  lemma CandidateTail(base: string, i: nat)
    ensures EndsAfterDash(Candidate(base, i), Text(i))
  {
    var head := Candidate(base, i)[..|Candidate(base, i)| - |Suffix(i)|];
    assert Candidate(base, i) == head + "-" + Text(i);
    assert Digits(Text(i));
  }

  lemma CandidatesDiffer(base: string, i: nat, j: nat)
    ensures Candidate(base, i) == Candidate(base, j) ==> i == j
  {
    CandidateTail(base, i);
    CandidateTail(base, j);
    if Candidate(base, i) == Candidate(base, j) {
      OneTail(Candidate(base, i), Text(i), Text(j));
      TextInjective(i, j);
    }
  }

  lemma SeriesDiffers(base: string, i: nat, j: nat)
    ensures Differ(Series(base), i, j)
  {
    var name := Series(base);
    forall k, l {:trigger name(k), name(l)} | i <= k < l < j ensures name(k) != name(l) {
      CandidatesDiffer(base, k, l);
    }
  }

  function Pow10(n: nat): nat {
    if n == 0 then 1 else 10 * Pow10(n - 1)
  }

  lemma {:induction false} TextWidth(n: nat, digits: nat)
    requires digits >= 1 && n < Pow10(digits)
    ensures |Text(n)| <= digits
    decreases digits
  {
    if n >= 10 {
      TextWidth(n / 10, digits - 1);
    }
  }

  lemma CandidateIsValid(base: string, index: nat)
    requires Valid(base) && index <= MAX_INT
    ensures Valid(Candidate(base, index))
  {
    assert Pow10(6) == 1000000;
    assert Pow10(12) == 1000000000000;
    assert Pow10(19) == 10000000000000000000;
    TextWidth(index, 19);
    assert Digits(Text(index));
  }

  method AvailableProfileId(base: string, existing: set<string>) returns (id: string)
    requires |existing| + 2 <= MAX_INT
    ensures id == Available(base, existing)
  {
    if base !in existing { return base; }
    var index := 2;
    SeriesDiffers(base, 2, |existing| + 3);
    while Candidate(base, index) in existing
      invariant 2 <= index <= |existing| + 2 && AllTaken(Series(base), 2, index, existing)
      decreases |existing| + 2 - index
    {
      assert Series(base)(index) in existing;
      Pigeonhole(Series(base), 2, index + 1, existing);
      index := index + 1;
    }
    assert Series(base)(index) !in existing;
    FirstIs(Series(base), 2, index, |existing| + 3, existing);
    return Candidate(base, index);
  }

  /** The identifier is valid and new; it is the base, or the numbered variant before which everything is taken, found after
      at most one look per identifier in use and one more. */
  lemma AvailableIsFresh(base: string, existing: set<string>) returns (index: nat)
    requires Valid(base) && |existing| + 2 <= MAX_INT
    ensures var id := Available(base, existing);
            && id !in existing && Valid(id) && (id == base || base in existing)
            && (base in existing ==> id == Candidate(base, index) && 2 <= index <= |existing| + 2
                                     && AllTaken(Series(base), 2, index, existing))
  {
    index := First(Series(base), 2, |existing| + 3, existing);
    if base in existing {
      SeriesDiffers(base, 2, |existing| + 3);
      FirstIsLeast(Series(base), 2, |existing| + 3, existing);
      FoundWithin(Series(base), 2, |existing| + 3, existing);
      assert Series(base)(index) == Candidate(base, index);
      CandidateIsValid(base, index);
    }
  }
}
