/** The recipient extractor: `EMAIL_REGEX`, `_normalize_emails` and
    `_parse_emails`. Uploaded files arrive already decoded; a `.csv` file
    arrives together with the rows Python's csv module reads from it. */
module Recipients {
  import opened Basics
  import opened Text

  // ---------------------------------------------------------------------
  // The address pattern ^[^@\s]+@[^@\s]+\.[^@\s]+$ under re.match
  // ---------------------------------------------------------------------

  /** A character of the class `[^@\s]`. */
  predicate AddressChar(c: char) {
    c != '@' && !IsSpace(c)
  }

  predicate AllAddressChars(s: string) {
    forall k :: 0 <= k < |s| ==> AddressChar(s[k])
  }

  /** Position of the first `c` in `s`, or `|s|` when there is none. */
  function IndexOf(s: string, c: char): (i: nat)
    ensures i <= |s|
    ensures i < |s| ==> s[i] == c
    ensures forall k :: 0 <= k < i ==> s[k] != c
  {
    if s == [] then 0 else if s[0] == c then 0 else 1 + IndexOf(s[1..], c)
  }

  /** The states of a left-to-right scan of a candidate against the pattern:
      nothing read yet, inside the local part, just after the `@`, inside the
      domain with no usable `.` yet, just after such a `.`, and at least one
      character past it. */
  datatype ScanState = Start | Local | AfterAt | Domain | AfterDot | Matched

  /** One character of the scan; `None` when no match is possible any more. */
  function Step(st: ScanState, c: char): Option<ScanState> {
    if IsSpace(c) then None
    else if c == '@' then (if st == Local then Some(AfterAt) else None)
    else match st
      case Start => Some(Local)
      case Local => Some(Local)
      case AfterAt => Some(Domain)
      case Domain => Some(if c == '.' then AfterDot else Domain)
      case AfterDot => Some(Matched)
      case Matched => Some(Matched)
  }

  predicate Scan(st: ScanState, s: string)
    decreases |s|
  {
    if s == [] then st == Matched
    else match Step(st, s[0])
      case None => false
      case Some(next) => Scan(next, s[1..])
  }

  /** The pattern matching the whole of `s`, with `$` read as end of string. */
  predicate StrictMatch(s: string) {
    Scan(Start, s)
  }

  /** `EMAIL_REGEX.match(s)`: Python's `$` also matches just before a final newline. */
  predicate MatchesEmailRegex(s: string) {
    StrictMatch(s) || (|s| > 0 && s[|s| - 1] == '\n' && StrictMatch(s[..|s| - 1]))
  }

  /** `[^@\s]+\.[^@\s]+` matching all of `d`. */
  ghost predicate DottedDomain(d: string) {
    |d| >= 3 && AllAddressChars(d) && '.' in d[1..|d| - 1]
  }

  /** The pattern read as a split at the first `@`. */
  ghost predicate SplitMatch(s: string) {
    var at := IndexOf(s, '@');
    0 < at < |s| && AllAddressChars(s[..at]) && DottedDomain(s[at + 1..])
  }

  lemma {:induction false} ScanMatched(s: string)
    ensures Scan(Matched, s) <==> AllAddressChars(s)
    decreases |s|
  {
    if s != [] {
      ScanMatched(s[1..]);
      assert AllAddressChars(s) <==> AddressChar(s[0]) && AllAddressChars(s[1..]) by {
        assert forall k :: 1 <= k < |s| ==> s[k] == s[1..][k - 1];
      }
    }
  }

  lemma ScanAfterDot(s: string)
    ensures Scan(AfterDot, s) <==> s != [] && AllAddressChars(s)
  {
    if s != [] {
      ScanMatched(s[1..]);
      assert AllAddressChars(s) <==> AddressChar(s[0]) && AllAddressChars(s[1..]) by {
        assert forall k :: 1 <= k < |s| ==> s[k] == s[1..][k - 1];
      }
    }
  }

  lemma {:induction false} ScanDomain(s: string)
    ensures Scan(Domain, s) <==> |s| >= 2 && AllAddressChars(s) && '.' in s[..|s| - 1]
    decreases |s|
  {
    if s != [] {
      var t := s[1..];
      assert AllAddressChars(s) <==> AddressChar(s[0]) && AllAddressChars(t) by {
        assert forall k :: 1 <= k < |s| ==> s[k] == t[k - 1];
      }
      if s[0] == '.' {
        ScanAfterDot(t);
        if |s| >= 2 { assert s[..|s| - 1][0] == '.'; }
      } else {
        ScanDomain(t);
        if |s| >= 2 {
          assert s[..|s| - 1] == [s[0]] + t[..|t| - 1];
        }
      }
    }
  }

  lemma ScanAfterAt(s: string)
    ensures Scan(AfterAt, s) <==> DottedDomain(s)
  {
    if s != [] {
      var t := s[1..];
      ScanDomain(t);
      assert AllAddressChars(s) <==> AddressChar(s[0]) && AllAddressChars(t) by {
        assert forall k :: 1 <= k < |s| ==> s[k] == t[k - 1];
      }
      if |s| >= 2 {
        assert s[1..|s| - 1] == t[..|t| - 1];
      }
    }
  }

  lemma {:induction false} ScanLocal(s: string)
    ensures Scan(Local, s) <==>
      var at := IndexOf(s, '@'); at < |s| && AllAddressChars(s[..at]) && DottedDomain(s[at + 1..])
    decreases |s|
  {
    if s != [] {
      var t := s[1..];
      if s[0] == '@' {
        ScanAfterAt(t);
      } else {
        ScanLocal(t);
        var at := IndexOf(s, '@');
        assert IndexOf(t, '@') == at - 1;
        if at < |s| {
          assert s[at + 1..] == t[at..];
        }
        assert AllAddressChars(s[..at]) <==> AddressChar(s[0]) && AllAddressChars(t[..at - 1]) by {
          assert forall k :: 1 <= k < at ==> s[..at][k] == t[..at - 1][k - 1];
        }
      }
    }
  }

  /** The scan accepts exactly the strings that split at their first `@` into
      a non-empty local part and a dotted domain. */
  lemma StrictMatchIsSplitMatch(s: string)
    ensures StrictMatch(s) <==> SplitMatch(s)
  {
    if s != [] {
      var t := s[1..];
      if s[0] != '@' && !IsSpace(s[0]) {
        ScanLocal(t);
        var at := IndexOf(s, '@');
        assert IndexOf(t, '@') == at - 1;
        if at < |s| {
          assert s[at + 1..] == t[at..];
        }
        assert AllAddressChars(s[..at]) <==> AddressChar(s[0]) && AllAddressChars(t[..at - 1]) by {
          assert forall k :: 1 <= k < at ==> s[..at][k] == t[..at - 1][k - 1];
        }
      }
    }
  }

  /** The address shape stated directly: no whitespace, exactly one `@`, not
      first, and a `.` with at least one character between it and the `@`
      and at least one after it. */
  ghost predicate AddressShape(s: string) {
    && (forall k :: 0 <= k < |s| ==> !IsSpace(s[k]))
    && exists at :: 0 < at < |s| && s[at] == '@'
         && (forall k :: 0 <= k < |s| && s[k] == '@' ==> k == at)
         && exists dot :: at + 1 < dot < |s| - 1 && s[dot] == '.'
  }

  lemma SplitMatchIsAddressShape(s: string)
    ensures SplitMatch(s) <==> AddressShape(s)
  {
    var at := IndexOf(s, '@');
    if SplitMatch(s) {
      var d := s[at + 1..];
      var j :| 0 <= j < |d[1..|d| - 1]| && d[1..|d| - 1][j] == '.';
      assert s[at + 2 + j] == '.';
      forall k | 0 <= k < |s|
        ensures !IsSpace(s[k]) && (s[k] == '@' ==> k == at)
      {
        if k < at { assert AddressChar(s[..at][k]); }
        else if k > at { assert AddressChar(d[k - at - 1]); }
      }
    }
    if AddressShape(s) {
      var a, dot :| 0 < a < |s| && s[a] == '@'
         && (forall k :: 0 <= k < |s| && s[k] == '@' ==> k == a)
         && a + 1 < dot < |s| - 1 && s[dot] == '.';
      assert at == a;
      var d := s[at + 1..];
      assert d[1..|d| - 1][dot - at - 2] == '.';
      assert forall k :: 0 <= k < |s| ==> (k != a ==> AddressChar(s[k]));
      assert AllAddressChars(s[..at]) by {
        forall k | 0 <= k < at ensures AddressChar(s[..at][k]) { assert s[..at][k] == s[k]; }
      }
      assert AllAddressChars(d) by {
        forall k | 0 <= k < |d| ensures AddressChar(d[k]) { assert d[k] == s[at + 1 + k]; }
      }
    }
  }

  lemma StrictMatchIsAddressShape(s: string)
    ensures StrictMatch(s) <==> AddressShape(s)
  {
    StrictMatchIsSplitMatch(s);
    SplitMatchIsAddressShape(s);
  }

  /** The pattern, as an if-and-only-if over the shape of the string. */
  lemma MatchesEmailRegexIff(s: string)
    ensures MatchesEmailRegex(s) <==>
      AddressShape(s) || (|s| > 0 && s[|s| - 1] == '\n' && AddressShape(s[..|s| - 1]))
  {
    StrictMatchIsAddressShape(s);
    if |s| > 0 { StrictMatchIsAddressShape(s[..|s| - 1]); }
  }

  /** A full match contains no whitespace (the trailing-newline form aside). */
  lemma StrictMatchHasNoSpace(s: string)
    requires StrictMatch(s)
    ensures forall k :: 0 <= k < |s| ==> !IsSpace(s[k])
  {
    StrictMatchIsAddressShape(s);
  }

  // ---------------------------------------------------------------------
  // re.split(r"[,\n;]+", text)
  // ---------------------------------------------------------------------

  predicate IsDelimiter(c: char) {
    c == ',' || c == '\n' || c == ';'
  }

  predicate DelimiterFree(s: string) {
    forall k :: 0 <= k < |s| ==> !IsDelimiter(s[k])
  }

  /** End of the token that starts at `i`: the next delimiter, or `|s|`. */
  function TokenEnd(s: string, i: nat): (j: nat)
    requires i <= |s|
    ensures i <= j <= |s|
    ensures j < |s| ==> IsDelimiter(s[j])
    ensures forall k :: i <= k < j ==> !IsDelimiter(s[k])
    decreases |s| - i
  {
    if i == |s| || IsDelimiter(s[i]) then i else TokenEnd(s, i + 1)
  }

  /** End of the maximal run of delimiters that starts at `i`. */
  function RunEnd(s: string, i: nat): (j: nat)
    requires i <= |s|
    ensures i <= j <= |s|
    ensures j < |s| ==> !IsDelimiter(s[j])
    ensures forall k :: i <= k < j ==> IsDelimiter(s[k])
    decreases |s| - i
  {
    if i < |s| && IsDelimiter(s[i]) then RunEnd(s, i + 1) else i
  }

  /** The pieces between maximal runs of `,`, newline and `;`. */
  function SplitDelimited(s: string): (r: seq<string>)
    ensures |r| >= 1
    ensures forall k :: 0 <= k < |r| ==> DelimiterFree(r[k])
    decreases |s|
  {
    var i := TokenEnd(s, 0);
    if i == |s| then [s] else [s[..i]] + SplitDelimited(s[RunEnd(s, i)..])
  }

  /** A non-empty run of `,`, newline and `;`. */
  predicate DelimiterRun(r: string) {
    r != [] && forall k :: 0 <= k < |r| ==> IsDelimiter(r[k])
  }

  /** The tokens `ts` with `seps[k]` written between `ts[k]` and `ts[k + 1]`. */
  function Interleave(ts: seq<string>, seps: seq<string>): string
    requires |ts| >= 1 && |seps| == |ts| - 1
    decreases |ts|
  {
    if |ts| == 1 then ts[0] else ts[0] + seps[0] + Interleave(ts[1..], seps[1..])
  }

  /** Splitting gives back the tokens, whatever run of delimiters stands
      between two of them, provided no token in the middle is empty: a run
      like `",;\n"` is one split point. */
  lemma {:induction false} SplitRuns(ts: seq<string>, seps: seq<string>)
    requires |ts| >= 1 && |seps| == |ts| - 1
    requires forall k :: 0 <= k < |ts| ==> DelimiterFree(ts[k])
    requires forall k :: 0 < k < |ts| - 1 ==> ts[k] != []
    requires forall k :: 0 <= k < |seps| ==> DelimiterRun(seps[k])
    ensures SplitDelimited(Interleave(ts, seps)) == ts
    decreases |ts|
  {
    var s, t0 := Interleave(ts, seps), ts[0];
    if |ts| == 1 {
      assert TokenEnd(s, 0) == |s|;
    } else {
      var sep, rest := seps[0], Interleave(ts[1..], seps[1..]);
      var n := |t0| + |sep|;
      assert s == t0 + sep + rest;
      assert s[..|t0|] == t0;
      assert forall k :: 0 <= k < |t0| ==> s[k] == t0[k];
      assert forall k :: |t0| <= k < n ==> s[k] == sep[k - |t0|];
      assert s[n..] == rest;
      assert s[|t0|] == sep[0] && IsDelimiter(sep[0]);
      assert TokenEnd(s, 0) == |t0|;
      InterleaveStart(ts[1..], seps[1..]);
      assert n < |s| ==> s[n] == ts[1][0];
      assert RunEnd(s, |t0|) == n;
      SplitRuns(ts[1..], seps[1..]);
    }
  }

  /** `re.split(r"[,\n;]+", "a,;\nb")` is `["a", "b"]`. */
  lemma RunOfDelimitersExample()
    ensures SplitDelimited("a,;\nb") == ["a", "b"]
  {
    var ts, seps := ["a", "b"], [",;\n"];
    assert Interleave(ts, seps) == "a,;\nb";
    SplitRuns(ts, seps);
  }

  /** The first token opens the text; if it is empty and more follow, a
      delimiter does. */
  lemma InterleaveStart(ts: seq<string>, seps: seq<string>)
    requires |ts| >= 1 && |seps| == |ts| - 1
    ensures var s := Interleave(ts, seps);
      |ts[0]| <= |s| && s[..|ts[0]|] == ts[0] && (ts[0] == [] && |ts| == 1 ==> s == [])
  {
    if |ts| > 1 {
      var s := Interleave(ts, seps);
      assert s == ts[0] + (seps[0] + Interleave(ts[1..], seps[1..]));
    }
  }

  /** The single-delimiter case: `sep.join(ts)` split again. */
  lemma SplitJoin(ts: seq<string>, sep: char)
    requires |ts| >= 1 && IsDelimiter(sep)
    requires forall k :: 0 <= k < |ts| ==> DelimiterFree(ts[k])
    requires forall k :: 0 < k < |ts| - 1 ==> ts[k] != []
    ensures SplitDelimited(Join(ts, [sep])) == ts
  {
    var seps := seq(|ts| - 1, _ => [sep]);
    JoinIsInterleave(ts, sep);
    SplitRuns(ts, seps);
  }

  lemma {:induction false} JoinIsInterleave(ts: seq<string>, sep: char)
    requires |ts| >= 1
    ensures Join(ts, [sep]) == Interleave(ts, seq(|ts| - 1, _ => [sep]))
    decreases |ts|
  {
    if |ts| > 1 {
      var seps := seq(|ts| - 1, _ => [sep]);
      assert seps[1..] == seq(|ts| - 2, _ => [sep]);
      JoinIsInterleave(ts[1..], sep);
    }
  }

  // ---------------------------------------------------------------------
  // Candidate collection in _parse_emails
  // ---------------------------------------------------------------------

  /** The pieces kept by `if EMAIL_REGEX.match(x.strip()): emails.append(x)`,
      unstripped. */
  function Matching(xs: seq<string>): seq<Option<string>>
  {
    if xs == [] then []
    else
      var x := xs[|xs| - 1];
      Matching(xs[..|xs| - 1]) + (if MatchesEmailRegex(Strip(x)) then [Some(x)] else [])
  }

  function DelimitedCandidates(text: string): seq<Option<string>> {
    Matching(SplitDelimited(text))
  }

  /** What Python's csv module reads from the decoded file: the rows read
      before parsing stopped, and whether it stopped by raising. */
  datatype CsvRead = CsvRead(rows: seq<seq<string>>, failed: bool)

  /** An uploaded recipients file: its name, its decoded text, and the csv
      reading of that text. */
  datatype Upload = Upload(name: string, text: string, csv: CsvRead)

  predicate IsCsvName(name: string) {
    EndsWith(Lower(name), ".csv")
  }

  /** Index of the first header that lower-cases to "email", or `|header|`. */
  function FirstEmailHeader(header: seq<string>): (i: nat)
    ensures i <= |header|
    ensures i < |header| ==> Lower(header[i]) == "email"
    ensures forall k :: 0 <= k < i ==> Lower(header[k]) != "email"
  {
    if header == [] then 0
    else if Lower(header[0]) == "email" then 0
    else 1 + FirstEmailHeader(header[1..])
  }

  /** Index of the last header spelled exactly `name`. */
  function LastPosition(header: seq<string>, name: string): (j: nat)
    requires name in header
    ensures j < |header| && header[j] == name
    ensures forall k :: j < k < |header| ==> header[k] != name
  {
    if header[|header| - 1] == name then |header| - 1
    else LastPosition(header[..|header| - 1], name)
  }

  /** The cell position a DictReader row takes the "email" column from: the
      column name is the first header lower-casing to "email", and since the row
      dictionary is built left to right, a repeated name takes its last position. */
  function EmailColumn(header: seq<string>): Option<nat>
  {
    var first := FirstEmailHeader(header);
    if first == |header| then None else Some(LastPosition(header, header[first]))
  }

  /** `row.get(col, "")` for every data row DictReader yields (it skips empty
      rows); a row too short for the column holds None there. */
  function ColumnCandidates(rows: seq<seq<string>>, col: nat): seq<Option<string>>
  {
    if rows == [] then []
    else
      var row := rows[|rows| - 1];
      ColumnCandidates(rows[..|rows| - 1], col)
        + (if row == [] then [] else [if col < |row| then Some(row[col]) else None])
  }

  /** Every matching cell of every row, the header row included. */
  function ScanCandidates(rows: seq<seq<string>>): seq<Option<string>>
  {
    if rows == [] then [] else ScanCandidates(rows[..|rows| - 1]) + Matching(rows[|rows| - 1])
  }

  function CsvCandidates(f: Upload): seq<Option<string>> {
    var rows := f.csv.rows;
    var fromRows :=
      if rows != [] && EmailColumn(rows[0]).Some? then ColumnCandidates(rows[1..], EmailColumn(rows[0]).value)
      else ScanCandidates(rows);
    fromRows + (if f.csv.failed then DelimitedCandidates(f.text) else [])
  }

  function FileCandidates(f: Upload): seq<Option<string>> {
    if IsCsvName(f.name) then CsvCandidates(f) else DelimitedCandidates(f.text)
  }

  function PastedCandidates(pasted: Option<string>): seq<Option<string>> {
    if pasted.Some? && pasted.value != [] then DelimitedCandidates(pasted.value) else []
  }

  /** Everything `_parse_emails` hands to `_normalize_emails`, file first. */
  function Candidates(file: Option<Upload>, pasted: Option<string>): seq<Option<string>> {
    (if file.Some? then FileCandidates(file.value) else []) + PastedCandidates(pasted)
  }

  /** Pasted text alone contributes its matching tokens; an empty text has none. */
  lemma PastedIsDelimited(text: string)
    ensures Candidates(None, Some(text)) == DelimitedCandidates(text)
  {
    if text == [] {
      assert SplitDelimited(text) == [[]];
      assert !MatchesEmailRegex(Strip([])) by { assert !Scan(Start, []); }
    }
  }

  /** The recipient list `_parse_emails` returns. */
  function ExtractRecipients(file: Option<Upload>, pasted: Option<string>): seq<string> {
    Normalize(Candidates(file, pasted))
  }

  // ---------------------------------------------------------------------
  // _normalize_emails
  // ---------------------------------------------------------------------

  /** `(raw or "").strip().strip(",;")`. */
  function Clean(raw: Option<string>): string {
    StripSeparators(Strip(raw.GetOr("")))
  }

  function Cleaned(items: seq<Option<string>>): (r: seq<string>)
    ensures |r| == |items| && forall k :: 0 <= k < |items| ==> r[k] == Clean(items[k])
  {
    if items == [] then [] else Cleaned(items[..|items| - 1]) + [Clean(items[|items| - 1])]
  }

  /** The test a cleaned candidate must pass: non-empty and matching. */
  predicate Admissible(e: string) {
    e != [] && MatchesEmailRegex(e)
  }

  /** The lower-cased forms of the addresses kept so far: the `seen` set. */
  function LowerSet(out: seq<string>): (r: set<string>)
    ensures forall k :: 0 <= k < |out| ==> Lower(out[k]) in r
    ensures forall x :: x in r ==> exists k :: 0 <= k < |out| && Lower(out[k]) == x
  {
    if out == [] then {} else LowerSet(out[..|out| - 1]) + {Lower(out[|out| - 1])}
  }

  /** The dedup pass: in order, keep each candidate that passes `accept` and
      whose lower-cased form has not been kept yet. */
  function KeepFirst(cs: seq<string>, accept: string -> bool): seq<string>
  {
    if cs == [] then []
    else
      var out := KeepFirst(cs[..|cs| - 1], accept);
      var e := cs[|cs| - 1];
      if accept(e) && Lower(e) !in LowerSet(out) then out + [e] else out
  }

  /** The list `_normalize_emails` returns. */
  function Normalize(items: seq<Option<string>>): seq<string> {
    KeepFirst(Cleaned(items), Admissible)
  }

  predicate CaseDistinct(xs: seq<string>) {
    forall i, j :: 0 <= i < j < |xs| ==> Lower(xs[i]) != Lower(xs[j])
  }

  lemma {:induction false} KeepFirstSoundAndDistinct(cs: seq<string>, accept: string -> bool)
    ensures forall k :: 0 <= k < |KeepFirst(cs, accept)| ==> accept(KeepFirst(cs, accept)[k])
    ensures CaseDistinct(KeepFirst(cs, accept))
  {
    if cs != [] {
      KeepFirstSoundAndDistinct(cs[..|cs| - 1], accept);
    }
  }

  lemma {:induction false} KeepFirstComplete(cs: seq<string>, accept: string -> bool)
    ensures forall i :: 0 <= i < |cs| && accept(cs[i]) ==> Lower(cs[i]) in LowerSet(KeepFirst(cs, accept))
  {
    if cs != [] {
      var init := cs[..|cs| - 1];
      KeepFirstComplete(init, accept);
      assert LowerSet(KeepFirst(init, accept)) <= LowerSet(KeepFirst(cs, accept));
      forall i | 0 <= i < |cs| - 1 ensures cs[i] == init[i] { }
    }
  }

  /** `idx` says, for each address in `out`, the position in `cs` it was
      taken from: positions increase, and no earlier candidate passes
      `accept` with the same lower-cased form. */
  predicate FirstSources(cs: seq<string>, out: seq<string>, accept: string -> bool, idx: seq<nat>) {
    && |idx| == |out|
    && (forall k :: 0 <= k < |idx| ==> idx[k] < |cs| && out[k] == cs[idx[k]])
    && (forall k, j :: 0 <= k < |idx| && 0 <= j < idx[k] ==> !(accept(cs[j]) && Lower(cs[j]) == Lower(out[k])))
    && (forall k1, k2 :: 0 <= k1 < k2 < |idx| ==> idx[k1] < idx[k2])
  }

  lemma FirstSourcesExtend(init: seq<string>, e: string, out: seq<string>, accept: string -> bool, prev: seq<nat>)
    requires FirstSources(init, out, accept, prev)
    requires forall i :: 0 <= i < |init| && accept(init[i]) ==> Lower(init[i]) in LowerSet(out)
    requires Lower(e) !in LowerSet(out)
    ensures FirstSources(init + [e], out + [e], accept, prev + [|init|])
  {
    var cs, idx, out' := init + [e], prev + [|init|], out + [e];
    forall k | 0 <= k < |idx|
      ensures idx[k] < |cs| && out'[k] == cs[idx[k]]
    {
      if k < |prev| {
        assert idx[k] == prev[k] && out'[k] == out[k] && cs[prev[k]] == init[prev[k]];
      }
    }
    forall k, j | 0 <= k < |idx| && 0 <= j < idx[k]
      ensures !(accept(cs[j]) && Lower(cs[j]) == Lower(out'[k]))
    {
      assert cs[j] == init[j];
      if k < |prev| {
        assert idx[k] == prev[k] && out'[k] == out[k];
      } else {
        assert out'[k] == e;
      }
    }
  }

  lemma FirstSourcesKeep(init: seq<string>, e: string, out: seq<string>, accept: string -> bool, prev: seq<nat>)
    requires FirstSources(init, out, accept, prev)
    ensures FirstSources(init + [e], out, accept, prev)
  {
    var cs := init + [e];
    assert forall i :: 0 <= i < |init| ==> cs[i] == init[i];
  }

  lemma {:induction false} KeepFirstOccurrences(cs: seq<string>, accept: string -> bool) returns (idx: seq<nat>)
    ensures FirstSources(cs, KeepFirst(cs, accept), accept, idx)
  {
    if cs == [] {
      idx := [];
    } else {
      var n := |cs| - 1;
      var init, e := cs[..n], cs[n];
      assert cs == init + [e];
      var prev := KeepFirstOccurrences(init, accept);
      var out := KeepFirst(init, accept);
      if accept(e) && Lower(e) !in LowerSet(out) {
        KeepFirstComplete(init, accept);
        FirstSourcesExtend(init, e, out, accept, prev);
        idx := prev + [n];
      } else {
        FirstSourcesKeep(init, e, out, accept, prev);
        idx := prev;
      }
    }
  }

  lemma {:induction false} KeepFirstPrefix(a: seq<string>, b: seq<string>, accept: string -> bool)
    ensures KeepFirst(a, accept) <= KeepFirst(a + b, accept)
    decreases |b|
  {
    if b == [] {
      assert a + b == a;
    } else {
      var b' := b[..|b| - 1];
      assert (a + b)[..|a + b| - 1] == a + b';
      KeepFirstPrefix(a, b', accept);
      var out := KeepFirst(a + b', accept);
      assert KeepFirst(a + b, accept) == out || KeepFirst(a + b, accept) == out + [b[|b| - 1]];
    }
  }

  lemma {:induction false} KeepFirstKeepsAll(xs: seq<string>, accept: string -> bool)
    requires forall k :: 0 <= k < |xs| ==> accept(xs[k])
    requires CaseDistinct(xs)
    ensures KeepFirst(xs, accept) == xs
  {
    if xs != [] {
      var n := |xs| - 1;
      KeepFirstKeepsAll(xs[..n], accept);
      assert Lower(xs[n]) !in LowerSet(xs[..n]);
      assert xs[..n] + [xs[n]] == xs;
    }
  }

  /** Every address kept is non-empty and matches the pattern, and no two are
      equal ignoring case. */
  lemma NormalizeSoundAndDistinct(items: seq<Option<string>>)
    ensures forall k :: 0 <= k < |Normalize(items)| ==> Admissible(Normalize(items)[k])
    ensures CaseDistinct(Normalize(items))
  {
    KeepFirstSoundAndDistinct(Cleaned(items), Admissible);
  }

  /** Every candidate that cleans to an admissible address is represented,
      ignoring case. */
  lemma NormalizeComplete(items: seq<Option<string>>)
    ensures forall i :: 0 <= i < |items| && Admissible(Clean(items[i])) ==>
      Lower(Clean(items[i])) in LowerSet(Normalize(items))
  {
    KeepFirstComplete(Cleaned(items), Admissible);
  }

  /** Each kept address is the cleaned form of the first candidate with that
      lower-cased form, and the kept addresses appear in candidate order:
      `idx` says which candidate each one came from. */
  lemma NormalizeFirstOccurrences(items: seq<Option<string>>) returns (idx: seq<nat>)
    ensures |idx| == |Normalize(items)|
    ensures forall k :: 0 <= k < |idx| ==> idx[k] < |items| && Normalize(items)[k] == Clean(items[idx[k]])
    ensures forall k, j :: 0 <= k < |idx| && 0 <= j < idx[k] ==>
      !(Admissible(Clean(items[j])) && Lower(Clean(items[j])) == Lower(Normalize(items)[k]))
    ensures forall k1, k2 :: 0 <= k1 < k2 < |idx| ==> idx[k1] < idx[k2]
  {
    idx := KeepFirstOccurrences(Cleaned(items), Admissible);
  }

  /** The addresses kept from a prefix of the candidates are a prefix of those
      kept from all of them. */
  lemma NormalizePrefix(a: seq<Option<string>>, b: seq<Option<string>>)
    ensures Normalize(a) <= Normalize(a + b)
  {
    assert Cleaned(a + b) == Cleaned(a) + Cleaned(b);
    KeepFirstPrefix(Cleaned(a), Cleaned(b), Admissible);
  }

  /** Candidates that already clean to distinct admissible addresses are kept
      one for one. */
  lemma NormalizeKeepsCleaned(items: seq<Option<string>>, xs: seq<string>)
    requires |items| == |xs|
    requires forall k :: 0 <= k < |xs| ==> Clean(items[k]) == xs[k] && Admissible(xs[k])
    requires CaseDistinct(xs)
    ensures Normalize(items) == xs
  {
    assert Cleaned(items) == xs;
    KeepFirstKeepsAll(xs, Admissible);
  }

  /** A kept address cleans to itself, unless it ends in the newline the
      pattern's `$` lets through. */
  lemma CleanFixesKept(raw: Option<string>)
    requires Admissible(Clean(raw))
    requires var e := Clean(raw); e[|e| - 1] != '\n'
    ensures Clean(Some(Clean(raw))) == Clean(raw)
  {
    var e := Clean(raw);
    var stripped := Strip(raw.GetOr(""));
    var front := TrimStart(stripped, IsListSeparator);
    TrimStartShape(stripped, IsListSeparator);
    TrimEndShape(front, IsListSeparator);
    assert !IsListSeparator(e[0]) && !IsListSeparator(e[|e| - 1]);
    StrictMatchHasNoSpace(e);
    TrimUnchanged(e, IsSpace);
    TrimUnchanged(e, IsListSeparator);
  }

  function Wrap(xs: seq<string>): (r: seq<Option<string>>)
    ensures |r| == |xs| && forall k :: 0 <= k < |xs| ==> r[k] == Some(xs[k])
  {
    if xs == [] then [] else Wrap(xs[..|xs| - 1]) + [Some(xs[|xs| - 1])]
  }

  predicate NoTrailingNewline(e: string) {
    e == [] || e[|e| - 1] != '\n'
  }

  /** Normalizing the output again changes nothing, when no kept address
      carries the trailing newline. */
  lemma NormalizeIdempotent(items: seq<Option<string>>)
    requires forall k :: 0 <= k < |Normalize(items)| ==> NoTrailingNewline(Normalize(items)[k])
    ensures Normalize(Wrap(Normalize(items))) == Normalize(items)
  {
    var out := Normalize(items);
    NormalizeSoundAndDistinct(items);
    var idx := NormalizeFirstOccurrences(items);
    forall k | 0 <= k < |out| ensures Clean(Wrap(out)[k]) == out[k] {
      CleanFixesKept(items[idx[k]]);
    }
    NormalizeKeepsCleaned(Wrap(out), out);
  }

  /** The pattern's `$` lets one trailing newline through normalization. */
  lemma TrailingNewlineKept(items: seq<Option<string>>)
    requires items == [Some("x@y.com\n;")]
    ensures Normalize(items) == ["x@y.com\n"]
  {
    TrailingNewlineAddress();
    assert Cleaned(items) == ["x@y.com\n"];
    assert KeepFirst(["x@y.com\n"][..0], Admissible) == [];
  }

  lemma TrailingNewlineAddress()
    ensures Clean(Some("x@y.com\n;")) == "x@y.com\n"
    ensures Admissible("x@y.com\n")
  {
    assert StrictMatch("x@y.com");
    assert "x@y.com\n"[..7] == "x@y.com";
    TrimUnchanged("x@y.com\n;", IsSpace);
    assert StripSeparators("x@y.com\n;") == "x@y.com\n";
  }

  // ---------------------------------------------------------------------
  // The two loops, as the source runs them
  // ---------------------------------------------------------------------

  /** `_normalize_emails(items)`: one pass keeping a `seen` set of lower-cased forms. */
  method NormalizeEmails(items: seq<Option<string>>) returns (out: seq<string>)
    ensures out == Normalize(items)
  {
    out := [];
    var seen: set<string> := {};
    for i := 0 to |items|
      invariant out == Normalize(items[..i])
      invariant seen == LowerSet(out)
    {
      assert items[..i + 1][..i] == items[..i];
      var e := Clean(items[i]);
      if e != [] && Lower(e) !in seen && MatchesEmailRegex(e) {
        out := out + [e];
        seen := seen + {Lower(e)};
      }
    }
    assert items[..|items|] == items;
  }

  /** `for x in xs: if EMAIL_REGEX.match(x.strip()): emails.append(x)`. */
  method AppendMatching(emails: seq<Option<string>>, xs: seq<string>) returns (r: seq<Option<string>>)
    ensures r == emails + Matching(xs)
  {
    r := emails;
    for i := 0 to |xs|
      invariant r == emails + Matching(xs[..i])
    {
      assert xs[..i + 1][..i] == xs[..i];
      if MatchesEmailRegex(Strip(xs[i])) {
        r := r + [Some(xs[i])];
      }
    }
    assert xs[..|xs|] == xs;
  }

  /** The loop over `re.split(r"[,\n;]+", text)`. */
  method AppendDelimited(emails: seq<Option<string>>, text: string) returns (r: seq<Option<string>>)
    ensures r == emails + DelimitedCandidates(text)
  {
    r := AppendMatching(emails, SplitDelimited(text));
  }

  /** `for row in reader: emails.append(row.get(col, ""))`. */
  method ColumnValues(rows: seq<seq<string>>, col: nat) returns (r: seq<Option<string>>)
    ensures r == ColumnCandidates(rows, col)
  {
    r := [];
    for i := 0 to |rows|
      invariant r == ColumnCandidates(rows[..i], col)
    {
      assert rows[..i + 1][..i] == rows[..i];
      var row := rows[i];
      if row != [] {
        r := r + [if col < |row| then Some(row[col]) else None];
      }
    }
    assert rows[..|rows|] == rows;
  }

  /** The nested loop over every cell of `csv.reader`. */
  method ScanCells(rows: seq<seq<string>>) returns (r: seq<Option<string>>)
    ensures r == ScanCandidates(rows)
  {
    r := [];
    for i := 0 to |rows|
      invariant r == ScanCandidates(rows[..i])
    {
      assert rows[..i + 1][..i] == rows[..i];
      r := AppendMatching(r, rows[i]);
    }
    assert rows[..|rows|] == rows;
  }

  /** The file branch of `_parse_emails`. */
  method ParseFile(f: Upload) returns (emails: seq<Option<string>>)
    ensures emails == FileCandidates(f)
  {
    if IsCsvName(f.name) {
      var rows := f.csv.rows;
      if rows != [] && EmailColumn(rows[0]).Some? {
        emails := ColumnValues(rows[1..], EmailColumn(rows[0]).value);
      } else {
        emails := ScanCells(rows);
      }
      if f.csv.failed {
        emails := AppendDelimited(emails, f.text);
      } else {
        assert emails + [] == emails;
      }
    } else {
      emails := AppendDelimited([], f.text);
    }
  }

  /** `_parse_emails(file_obj, manual_text)`. */
  method ParseEmails(file: Option<Upload>, pasted: Option<string>) returns (recipients: seq<string>)
    ensures recipients == ExtractRecipients(file, pasted)
  {
    var emails: seq<Option<string>> := [];
    if file.Some? {
      emails := ParseFile(file.value);
    }
    if pasted.Some? && pasted.value != [] {
      emails := AppendDelimited(emails, pasted.value);
    } else {
      assert emails + [] == emails;
    }
    recipients := NormalizeEmails(emails);
  }

  // ---------------------------------------------------------------------
  // Properties of the extractor as a whole
  // ---------------------------------------------------------------------

  /** Addresses found in the file come first, in the order the file alone gives. */
  lemma FileRecipientsFirst(file: Option<Upload>, pasted: Option<string>)
    ensures ExtractRecipients(file, None) <= ExtractRecipients(file, pasted)
  {
    var a := if file.Some? then FileCandidates(file.value) else [];
    assert Candidates(file, None) == a by { assert a + [] == a; }
    NormalizePrefix(a, PastedCandidates(pasted));
  }

  /** A CSV file with an "email" header contributes exactly that column's values
      of its non-empty data rows; no cell is scanned. */
  lemma EmailColumnOnly(f: Upload)
    requires IsCsvName(f.name) && !f.csv.failed
    requires f.csv.rows != [] && EmailColumn(f.csv.rows[0]).Some?
    ensures FileCandidates(f) == ColumnCandidates(f.csv.rows[1..], EmailColumn(f.csv.rows[0]).value)
    ensures var j := EmailColumn(f.csv.rows[0]).value;
      Lower(f.csv.rows[0][j]) == "email"
      && f.csv.rows[0][j] == f.csv.rows[0][FirstEmailHeader(f.csv.rows[0])]
  {
  }

  /** A candidate without `@` never matches. */
  lemma NoAtNoMatch(s: string)
    requires '@' !in s
    ensures !MatchesEmailRegex(s)
  {
    StrictMatchIsSplitMatch(s);
    if |s| > 0 {
      var t := s[..|s| - 1];
      assert '@' !in t by { assert forall k :: 0 <= k < |t| ==> t[k] == s[k]; }
      StrictMatchIsSplitMatch(t);
    }
  }

  /** Stripping and cleaning leave a string alone when neither end is
      whitespace, `,` or `;`. */
  lemma CleanOfPlain(e: string)
    requires e != [] && !IsSpace(e[0]) && !IsSpace(e[|e| - 1])
    requires !IsListSeparator(e[0]) && !IsListSeparator(e[|e| - 1])
    ensures Strip(e) == e && Clean(Some(e)) == e
  {
    TrimUnchanged(e, IsSpace);
    TrimUnchanged(e, IsListSeparator);
  }

  lemma MatchingSnoc(xs: seq<string>, x: string)
    ensures Matching(xs + [x]) == Matching(xs) + (if MatchesEmailRegex(Strip(x)) then [Some(x)] else [])
  {
    assert (xs + [x])[..|xs|] == xs;
  }

  lemma PastedExampleTokens(text: string)
    requires text == "x@y.com;not-an-email;z@w.org"
    ensures SplitDelimited(text) == ["x@y.com", "not-an-email", "z@w.org"]
  {
    var ts := ["x@y.com", "not-an-email", "z@w.org"];
    assert text == Join(ts, [';']);
    SplitJoin(ts, ';');
  }

  /** `l@d.tld` with single-character local part and domain label. */
  lemma ShortAddress(l: char, d: char, tld: string)
    requires AddressChar(l) && AddressChar(d) && tld != [] && AllAddressChars(tld)
    ensures StrictMatch([l, '@', d, '.'] + tld)
  {
    ScanAfterDot(tld);
    var s3 := ['.'] + tld;
    assert s3[1..] == tld;
    assert Scan(Domain, s3);
    var s2 := [d] + s3;
    assert s2[1..] == s3;
    assert Scan(AfterAt, s2);
    var s1 := ['@'] + s2;
    assert s1[1..] == s2;
    assert Scan(Local, s1);
    var s := [l] + s1;
    assert s[1..] == s1;
    assert s == [l, '@', d, '.'] + tld;
  }

  /** The addresses of the two examples below match in full. */
  lemma SampleAddresses()
    ensures StrictMatch("x@y.com") && StrictMatch("z@w.org")
    ensures StrictMatch("a@b.com") && StrictMatch("A@B.com")
  {
    ShortAddress('x', 'y', "com");
    assert "x@y.com" == ['x', '@', 'y', '.'] + "com";
    ShortAddress('z', 'w', "org");
    assert "z@w.org" == ['z', '@', 'w', '.'] + "org";
    ShortAddress('a', 'b', "com");
    assert "a@b.com" == ['a', '@', 'b', '.'] + "com";
    ShortAddress('A', 'B', "com");
    assert "A@B.com" == ['A', '@', 'B', '.'] + "com";
  }

  /** An address that matches in full and neither starts nor ends with `,`
      or `;` is kept as it is written. */
  lemma AddressAsIs(e: string)
    requires StrictMatch(e) && e != []
    requires !IsListSeparator(e[0]) && !IsListSeparator(e[|e| - 1])
    ensures Strip(e) == e && Clean(Some(e)) == e
    ensures Admissible(e) && MatchesEmailRegex(Strip(e))
  {
    StrictMatchHasNoSpace(e);
    CleanOfPlain(e);
  }

  /** Of three tokens, the first and last match and the middle one does not. */
  lemma MatchingOuter(a: string, b: string, c: string)
    requires MatchesEmailRegex(Strip(a)) && !MatchesEmailRegex(Strip(b)) && MatchesEmailRegex(Strip(c))
    ensures Matching([a, b, c]) == [Some(a), Some(c)]
  {
    MatchingSnoc([], a);
    MatchingSnoc([a], b);
    MatchingSnoc([a, b], c);
    assert [a, b] == [a] + [b];
    assert [a, b, c] == [a, b] + [c];
  }

  /** Two tokens that both match are both kept. */
  lemma MatchingBoth(a: string, b: string)
    requires MatchesEmailRegex(Strip(a)) && MatchesEmailRegex(Strip(b))
    ensures Matching([a, b]) == [Some(a), Some(b)]
  {
    MatchingSnoc([], a);
    MatchingSnoc([a], b);
    assert [a, b] == [a] + [b];
  }

  lemma PastedExampleMatching()
    ensures Matching(["x@y.com", "not-an-email", "z@w.org"]) == [Some("x@y.com"), Some("z@w.org")]
  {
    SampleAddresses();
    AddressAsIs("x@y.com");
    AddressAsIs("z@w.org");
    NotAnEmail();
    MatchingOuter("x@y.com", "not-an-email", "z@w.org");
  }

  lemma NotAnEmail()
    ensures !MatchesEmailRegex(Strip("not-an-email"))
  {
    CleanOfPlain("not-an-email");
    NoAtNoMatch("not-an-email");
  }

  /** Two candidates that clean to themselves and differ ignoring case are
      both kept, in order. */
  lemma NormalizeTwoDistinct(x: string, z: string)
    requires Admissible(x) && Admissible(z) && Clean(Some(x)) == x && Clean(Some(z)) == z
    requires Lower(x) != Lower(z)
    ensures Normalize([Some(x), Some(z)]) == [x, z]
  {
    NormalizeKeepsCleaned([Some(x), Some(z)], [x, z]);
  }

  /** Of two candidates equal ignoring case, only the first spelling is kept. */
  lemma NormalizeTwoSame(x: Option<string>, y: Option<string>)
    requires Admissible(Clean(x)) && Lower(Clean(x)) == Lower(Clean(y))
    ensures Normalize([x, y]) == [Clean(x)]
  {
    var items := [x, y];
    assert items[..1] == [x] && [x][..0] == [];
    assert Cleaned(items) == [Clean(x), Clean(y)];
    var cs := [Clean(x), Clean(y)];
    assert cs[..1] == [Clean(x)] && [Clean(x)][..0] == [];
    assert KeepFirst([Clean(x)], Admissible) == [Clean(x)];
    assert Lower(Clean(y)) in LowerSet([Clean(x)]);
  }

  lemma PastedExampleAddresses()
    ensures Admissible("x@y.com") && Admissible("z@w.org")
    ensures Clean(Some("x@y.com")) == "x@y.com" && Clean(Some("z@w.org")) == "z@w.org"
    ensures Lower("x@y.com") != Lower("z@w.org")
  {
    SampleAddresses();
    AddressAsIs("x@y.com");
    AddressAsIs("z@w.org");
    assert Lower("x@y.com")[0] != Lower("z@w.org")[0];
  }

  lemma PastedExampleCandidates(text: string)
    requires text == "x@y.com;not-an-email;z@w.org"
    ensures Candidates(None, Some(text)) == [Some("x@y.com"), Some("z@w.org")]
  {
    PastedExampleTokens(text);
    PastedExampleMatching();
  }

  /** The example `"x@y.com;not-an-email;z@w.org"` pasted alone. */
  lemma PastedExample(text: string)
    requires text == "x@y.com;not-an-email;z@w.org"
    ensures ExtractRecipients(None, Some(text)) == ["x@y.com", "z@w.org"]
  {
    PastedExampleCandidates(text);
    PastedExampleAddresses();
    NormalizeTwoDistinct("x@y.com", "z@w.org");
  }

  lemma CaseDuplicateMatching()
    ensures Matching(["a@b.com", " A@B.com"]) == [Some("a@b.com"), Some(" A@B.com")]
  {
    SampleAddresses();
    AddressAsIs("a@b.com");
    AddressAsIs("A@B.com");
    StripLeadingBlank("A@B.com");
    MatchingBoth("a@b.com", " A@B.com");
  }

  /** One leading blank is stripped and cleaned away. */
  lemma StripLeadingBlank(b: string)
    requires b != [] && !IsSpace(b[0]) && !IsSpace(b[|b| - 1])
    requires !IsListSeparator(b[0]) && !IsListSeparator(b[|b| - 1])
    ensures Strip([' '] + b) == b && Clean(Some([' '] + b)) == b
  {
    CleanOfPlain(b);
    assert ([' '] + b)[1..] == b;
  }

  lemma CaseDuplicateCandidates(text: string)
    requires text == "a@b.com, A@B.com"
    ensures Candidates(None, Some(text)) == [Some("a@b.com"), Some(" A@B.com")]
  {
    var ts := ["a@b.com", " A@B.com"];
    assert text == Join(ts, [',']);
    SplitJoin(ts, ',');
    CaseDuplicateMatching();
  }

  lemma CaseDuplicateAddresses()
    ensures Admissible(Clean(Some("a@b.com")))
    ensures Lower(Clean(Some("a@b.com"))) == Lower(Clean(Some(" A@B.com")))
    ensures Clean(Some("a@b.com")) == "a@b.com"
  {
    SampleAddresses();
    AddressAsIs("a@b.com");
    StripLeadingBlank("A@B.com");
    SampleSpellings();
  }

  /** The two spellings of the example lower-case alike. */
  lemma SampleSpellings()
    ensures Lower("A@B.com") == Lower("a@b.com")
  {
    var u, l := Lower("A@B.com"), Lower("a@b.com");
    assert u[0] == 'a' && u[2] == 'b';
    assert forall k :: 0 <= k < 7 ==> u[k] == l[k];
  }

  /** The example `"a@b.com, A@B.com"`: one address, the first spelling. */
  lemma CaseDuplicateExample(text: string)
    requires text == "a@b.com, A@B.com"
    ensures ExtractRecipients(None, Some(text)) == ["a@b.com"]
  {
    CaseDuplicateCandidates(text);
    CaseDuplicateAddresses();
    NormalizeTwoSame(Some("a@b.com"), Some(" A@B.com"));
  }
}
