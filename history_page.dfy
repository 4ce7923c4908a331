/** The history page (pages/HistoryPage.tsx): the search filter with its
    date-descending order, the CSV and JSON export payloads, and the export
    file names. The locale date formatting and the date parser are
    parameters. */
module HistoryPage {
  import opened Wrappers
  import opened Text
  import opened Types
  import opened JsonString

  // ---------------------------------------------------------------------------
  // Search filter and order

  /** An entry is listed when its case number contains the term, ignoring
      ASCII case, or when its formatted date contains the term as typed. */
  predicate MatchesSearch(e: SummaryEntry, term: string, formatDate: string -> string)
  {
    Contains(Lower(e.processNumber), Lower(term)) || Contains(formatDate(e.date), term)
  }

  /** `history.filter(...)`: the matching entries, in order. */
  function FilterEntries(history: seq<SummaryEntry>, term: string, formatDate: string -> string): (r: seq<SummaryEntry>)
    ensures |r| <= |history|
  {
    if history == [] then []
    else
      (if MatchesSearch(history[0], term, formatDate) then [history[0]] else [])
        + FilterEntries(history[1..], term, formatDate)
  }

  /** Each matching entry is kept as often as it is stored, and no other is. */
  lemma {:induction false} FilterEntriesCount(history: seq<SummaryEntry>, term: string, formatDate: string -> string)
    ensures forall e :: (multiset(FilterEntries(history, term, formatDate))[e]
      == if MatchesSearch(e, term, formatDate) then multiset(history)[e] else 0)
  {
    if history != [] {
      FilterEntriesCount(history[1..], term, formatDate);
      assert history == [history[0]] + history[1..];
    }
  }

  /** The filter goes through the history in order: filtering two stretches
      is filtering the first followed by filtering the second. */
  lemma {:induction false} FilterEntriesAppend(a: seq<SummaryEntry>, b: seq<SummaryEntry>, term: string,
                                               formatDate: string -> string)
    ensures FilterEntries(a + b, term, formatDate) == FilterEntries(a, term, formatDate) + FilterEntries(b, term, formatDate)
  {
    if a == [] {
      assert a + b == b;
    } else {
      var head := if MatchesSearch(a[0], term, formatDate) then [a[0]] else [];
      assert (a + b)[0] == a[0];
      assert (a + b)[1..] == a[1..] + b;
      assert FilterEntries(a + b, term, formatDate) == head + FilterEntries(a[1..] + b, term, formatDate);
      assert FilterEntries(a, term, formatDate) == head + FilterEntries(a[1..], term, formatDate);
      FilterEntriesAppend(a[1..], b, term, formatDate);
    }
  }

  /** Newest first: no entry is dated after one listed before it. */
  predicate SortedDesc(s: seq<SummaryEntry>, time: string -> int)
  {
    forall i, j | 0 <= i < j < |s| :: time(s[i].date) >= time(s[j].date)
  }

  /** Puts `e` before the first entry not newer than it. */
  function InsertDesc(e: SummaryEntry, s: seq<SummaryEntry>, time: string -> int): (r: seq<SummaryEntry>)
    ensures |r| == |s| + 1
  {
    if s == [] || time(e.date) >= time(s[0].date) then [e] + s
    else [s[0]] + InsertDesc(e, s[1..], time)
  }

  /** Inserting adds `e` once and keeps every other entry. */
  lemma {:induction false} InsertDescPermutes(e: SummaryEntry, s: seq<SummaryEntry>, time: string -> int)
    ensures multiset(InsertDesc(e, s, time)) == multiset(s) + multiset{e}
  {
    if !(s == [] || time(e.date) >= time(s[0].date)) {
      InsertDescPermutes(e, s[1..], time);
      assert s == [s[0]] + s[1..];
    }
  }

  /** An entry no older than any of a newest-first list can go in front of it. */
  lemma ConsSorted(x: SummaryEntry, s: seq<SummaryEntry>, time: string -> int)
    requires SortedDesc(s, time)
    requires forall k | 0 <= k < |s| :: time(x.date) >= time(s[k].date)
    ensures SortedDesc([x] + s, time)
  {
    var r := [x] + s;
    forall i, j | 0 <= i < j < |r| ensures time(r[i].date) >= time(r[j].date) {
      assert r[j] == s[j - 1];
      if i > 0 {
        assert r[i] == s[i - 1];
      }
    }
  }

  /** The rest of a newest-first list is newest first. */
  lemma RestSorted(s: seq<SummaryEntry>, time: string -> int)
    requires SortedDesc(s, time) && s != []
    ensures SortedDesc(s[1..], time)
  {
    var rest := s[1..];
    forall i, j | 0 <= i < j < |rest| ensures time(rest[i].date) >= time(rest[j].date) {
      assert rest[i] == s[i + 1] && rest[j] == s[j + 1];
    }
  }

  /** Inserting into a newest-first list keeps it newest first. */
  lemma {:induction false} InsertDescSorted(e: SummaryEntry, s: seq<SummaryEntry>, time: string -> int)
    requires SortedDesc(s, time)
    ensures SortedDesc(InsertDesc(e, s, time), time)
  {
    if s == [] || time(e.date) >= time(s[0].date) {
      ConsSorted(e, s, time);
    } else {
      var rest := s[1..];
      RestSorted(s, time);
      InsertDescSorted(e, rest, time);
      InsertDescPermutes(e, rest, time);
      var tail := InsertDesc(e, rest, time);
      forall k | 0 <= k < |tail| ensures time(s[0].date) >= time(tail[k].date) {
        var x := tail[k];
        assert x in multiset(tail);
        if x != e {
          assert x in multiset(rest);
          var m :| 0 <= m < |rest| && rest[m] == x;
          assert s[m + 1] == x;
        }
      }
      ConsSorted(s[0], tail, time);
    }
  }

  /** `.sort((a, b) => time(b.date) - time(a.date))`: the same entries, newest first. */
  function SortByDateDesc(s: seq<SummaryEntry>, time: string -> int): (r: seq<SummaryEntry>)
    ensures SortedDesc(r, time)
    ensures multiset(r) == multiset(s)
  {
    if s == [] then []
    else
      assert s == [s[0]] + s[1..];
      var tail := SortByDateDesc(s[1..], time);
      InsertDescSorted(s[0], tail, time);
      InsertDescPermutes(s[0], tail, time);
      InsertDesc(s[0], tail, time)
  }

  /** The entries dated at instant `t`, in the order they come in. */
  function DatedAt(s: seq<SummaryEntry>, time: string -> int, t: int): (r: seq<SummaryEntry>)
    ensures |r| <= |s|
  {
    if s == [] then []
    else (if time(s[0].date) == t then [s[0]] else []) + DatedAt(s[1..], time, t)
  }

  /** `e` goes before every entry of its own date, and the order of all
      other entries stays as it was. */
  lemma {:induction false} InsertDescDatedAt(e: SummaryEntry, s: seq<SummaryEntry>, time: string -> int, t: int)
    ensures DatedAt(InsertDesc(e, s, time), time, t)
      == (if time(e.date) == t then [e] else []) + DatedAt(s, time, t)
  {
    var r := InsertDesc(e, s, time);
    if s == [] || time(e.date) >= time(s[0].date) {
      assert r[1..] == s;
    } else {
      InsertDescDatedAt(e, s[1..], time, t);
      assert r[1..] == InsertDesc(e, s[1..], time);
    }
  }

  /** The sort is stable, as `Array.prototype.sort` is required to be since
      ECMAScript 2019: entries with equal dates keep their history order. */
  lemma {:induction false} SortByDateDescStable(s: seq<SummaryEntry>, time: string -> int, t: int)
    ensures DatedAt(SortByDateDesc(s, time), time, t) == DatedAt(s, time, t)
  {
    if s != [] {
      SortByDateDescStable(s[1..], time, t);
      InsertDescDatedAt(s[0], SortByDateDesc(s[1..], time), time, t);
    }
  }

  /** Taking the entries of one date and filtering commute. */
  lemma {:induction false} FilterDatedAt(history: seq<SummaryEntry>, term: string,
                                         formatDate: string -> string, time: string -> int, t: int)
    ensures DatedAt(FilterEntries(history, term, formatDate), time, t)
      == FilterEntries(DatedAt(history, time, t), term, formatDate)
  {
    if history != [] {
      FilterDatedAt(history[1..], term, formatDate, time, t);
      var e := history[0];
      var rest := FilterEntries(history[1..], term, formatDate);
      var d := DatedAt(history[1..], time, t);
      var kept := if MatchesSearch(e, term, formatDate) && time(e.date) == t then [e] else [];
      if MatchesSearch(e, term, formatDate) {
        assert FilterEntries(history, term, formatDate) == [e] + rest;
        var x := [e] + rest;
        assert x[0] == e && x[1..] == rest;
        assert DatedAt(x, time, t) == (if time(e.date) == t then [e] else []) + DatedAt(rest, time, t);
        assert DatedAt(FilterEntries(history, term, formatDate), time, t) == kept + DatedAt(rest, time, t);
      } else {
        assert [] + rest == rest;
        assert FilterEntries(history, term, formatDate) == rest;
      }
      if time(e.date) == t {
        assert DatedAt(history, time, t) == [e] + d;
        var x := [e] + d;
        assert x[0] == e && x[1..] == d;
        assert FilterEntries(x, term, formatDate)
          == (if MatchesSearch(e, term, formatDate) then [e] else []) + FilterEntries(d, term, formatDate);
        assert FilterEntries(DatedAt(history, time, t), term, formatDate) == kept + FilterEntries(d, term, formatDate);
      } else {
        assert [] + d == d;
        assert DatedAt(history, time, t) == d;
      }
    }
  }

  /** `filteredHistory`. */
  function FilteredHistory(history: seq<SummaryEntry>, term: string,
                           formatDate: string -> string, time: string -> int): seq<SummaryEntry>
  {
    SortByDateDesc(FilterEntries(history, term, formatDate), time)
  }

  /** The listed entries are exactly the matching entries of the history,
      each as often as it is stored, newest first; entries of the same date
      keep their history order. */
  lemma FilteredHistorySpec(history: seq<SummaryEntry>, term: string,
                            formatDate: string -> string, time: string -> int)
    ensures SortedDesc(FilteredHistory(history, term, formatDate, time), time)
    ensures multiset(FilteredHistory(history, term, formatDate, time)) == multiset(FilterEntries(history, term, formatDate))
    ensures forall e :: (multiset(FilteredHistory(history, term, formatDate, time))[e]
      == if MatchesSearch(e, term, formatDate) then multiset(history)[e] else 0)
    ensures multiset(FilteredHistory(history, term, formatDate, time)) <= multiset(history)
    ensures forall e | e in FilteredHistory(history, term, formatDate, time) :: MatchesSearch(e, term, formatDate)
    ensures forall e | e in history && MatchesSearch(e, term, formatDate) :: e in FilteredHistory(history, term, formatDate, time)
    ensures forall t :: (DatedAt(FilteredHistory(history, term, formatDate, time), time, t)
      == FilterEntries(DatedAt(history, time, t), term, formatDate))
  {
    var f := FilterEntries(history, term, formatDate);
    var r := FilteredHistory(history, term, formatDate, time);
    FilterEntriesCount(history, term, formatDate);
    assert multiset(r) == multiset(f);
    forall t ensures DatedAt(r, time, t) == FilterEntries(DatedAt(history, time, t), term, formatDate) {
      SortByDateDescStable(f, time, t);
      FilterDatedAt(history, term, formatDate, time, t);
    }
    forall e ensures multiset(r)[e] <= multiset(history)[e] {
    }
    forall e | e in r ensures MatchesSearch(e, term, formatDate) {
      assert multiset(r)[e] > 0;
    }
    forall e | e in history && MatchesSearch(e, term, formatDate) ensures e in r {
      assert multiset(history)[e] > 0;
      assert multiset(r)[e] > 0;
    }
  }

  /** An empty search keeps every entry. */
  lemma {:induction false} EmptySearchKeepsAll(history: seq<SummaryEntry>, formatDate: string -> string)
    ensures FilterEntries(history, "", formatDate) == history
  {
    if history != [] {
      ContainsEmpty(Lower(history[0].processNumber));
      assert Lower("") == "";
      EmptySearchKeepsAll(history[1..], formatDate);
      assert history == [history[0]] + history[1..];
    }
  }

  // ---------------------------------------------------------------------------
  // CSV export

  const CSV_COLUMNS: seq<string> :=
    ["id", "date", "processNumber", "summaryTechnical", "summarySimplified", "originalFileName", "rawText"]

  /** The values in column order; a missing file name is written as the empty string. */
  function CsvValues(e: SummaryEntry): (r: seq<string>)
    ensures |r| == |CSV_COLUMNS|
    ensures e.originalFileName.None? ==> r[5] == ""
  {
    [e.id, e.date, e.processNumber, e.summaryTechnical, e.summarySimplified,
     e.originalFileName.GetOr(""), e.rawText]
  }

  function QuoteAll(fields: seq<string>): (r: seq<string>)
    ensures |r| == |fields|
    ensures forall i | 0 <= i < |fields| :: r[i] == Quote(fields[i])
  {
    if fields == [] then [] else [Quote(fields[0])] + QuoteAll(fields[1..])
  }

  /** The CSV export: the header, CR LF, and one row of JSON-quoted values. */
  function CsvExport(e: SummaryEntry): string
  {
    Join(CSV_COLUMNS, ",") + "\r\n" + Join(QuoteAll(CsvValues(e)), ",")
  }

  /** Reads a row of comma-separated quoted values. */
  function ReadFields(t: string): Option<seq<string>>
    decreases |t|
  {
    match ParseString(t)
    case None => None
    case Some((f, rest)) =>
      if rest == [] then Some([f])
      else if rest[0] == ',' then
        match ReadFields(rest[1..])
        case None => None
        case Some(fs) => Some([f] + fs)
      else None
  }

  /** Reads a CSV export back into its values. */
  function ReadCsv(t: string): Option<seq<string>>
  {
    var head := Join(CSV_COLUMNS, ",") + "\r\n";
    if StartsWith(t, head) then ReadFields(t[|head|..]) else None
  }

  lemma {:induction false} ReadFieldsRoundTrip(fields: seq<string>)
    requires |fields| >= 1
    ensures ReadFields(Join(QuoteAll(fields), ",")) == Some(fields)
  {
    var q := QuoteAll(fields);
    if |fields| == 1 {
      QuoteRoundTrip(fields[0], "");
      assert Quote(fields[0]) + "" == Quote(fields[0]) == Join(q, ",");
      assert [fields[0]] == fields;
    } else {
      var tail := Join(q[1..], ",");
      assert q[1..] == QuoteAll(fields[1..]);
      assert Join(q, ",") == Quote(fields[0]) + ("," + tail);
      QuoteRoundTrip(fields[0], "," + tail);
      assert ("," + tail)[1..] == tail;
      ReadFieldsRoundTrip(fields[1..]);
      assert [fields[0]] + fields[1..] == fields;
    }
  }

  /** The CSV export starts with the header line and reads back as the entry's
      values, in column order: every value is the JSON encoding of its field. */
  lemma CsvRoundTrip(e: SummaryEntry)
    ensures StartsWith(CsvExport(e), Join(CSV_COLUMNS, ",") + "\r\n")
    ensures ReadCsv(CsvExport(e)) == Some(CsvValues(e))
  {
    var head := Join(CSV_COLUMNS, ",") + "\r\n";
    var row := Join(QuoteAll(CsvValues(e)), ",");
    assert CsvExport(e) == head + row;
    assert (head + row)[..|head|] == head;
    assert (head + row)[|head|..] == row;
    ReadFieldsRoundTrip(CsvValues(e));
  }

  // ---------------------------------------------------------------------------
  // JSON export

  /** A field value: a string literal, or `null`. */
  function JsonValue(v: Option<string>): string
  {
    match v
    case None => "null"
    case Some(s) => Quote(s)
  }

  /** The text before a member's value: indentation, the quoted key and the colon. */
  function MemberOpen(key: string): string
  {
    "  " + Quote(key) + ": "
  }

  /** The text after a member's value: a comma unless it is the last, then a line break. */
  function MemberClose(last: bool): string
  {
    if last then "\n" else ",\n"
  }

  /** One member line of `JSON.stringify(entry, null, 2)`. */
  function Member(key: string, value: Option<string>, last: bool): string
  {
    MemberOpen(key) + JsonValue(value) + MemberClose(last)
  }

  /** The keys of the string-valued members, in the order the home page
      creates them; `originalFileName` follows them last. */
  const STRING_KEYS: seq<string> := ["id", "date", "summaryTechnical", "summarySimplified", "rawText", "processNumber"]

  /** Member lines holding string values, none of them last. */
  function StringMembers(keys: seq<string>, values: seq<string>): string
    requires |keys| == |values|
  {
    if keys == [] then "" else Member(keys[0], Some(values[0]), false) + StringMembers(keys[1..], values[1..])
  }

  /** The string fields in `STRING_KEYS` order. */
  function StringValues(e: SummaryEntry): (r: seq<string>)
    ensures |r| == |STRING_KEYS|
  {
    [e.id, e.date, e.summaryTechnical, e.summarySimplified, e.rawText, e.processNumber]
  }

  /** `JSON.stringify(entry, null, 2)`. */
  function JsonExport(e: SummaryEntry): string
  {
    "{\n" + (StringMembers(STRING_KEYS, StringValues(e))
      + (Member("originalFileName", e.originalFileName, true) + "}"))
  }

  /** What follows `prefix` at the front of `t`, if `t` starts with it. */
  function StripPrefix(t: string, prefix: string): (r: Option<string>)
    ensures r.Some? <==> StartsWith(t, prefix)
    ensures r.Some? ==> t == prefix + r.value
  {
    if StartsWith(t, prefix) then
      assert t == t[..|prefix|] + t[|prefix|..];
      Some(t[|prefix|..])
    else None
  }

  lemma StripPrefixAppend(prefix: string, rest: string)
    ensures StripPrefix(prefix + rest, prefix) == Some(rest)
  {
    assert (prefix + rest)[..|prefix|] == prefix;
    assert (prefix + rest)[|prefix|..] == rest;
  }

  /** Reads a value: `null` or a string literal. */
  function ReadValue(t: string): Option<(Option<string>, string)>
  {
    match StripPrefix(t, "null")
    case Some(rest) => Some((None, rest))
    case None =>
      match ParseString(t)
      case None => None
      case Some((s, rest)) => Some((Some(s), rest))
  }

  /** Reads one member line with the given key. */
  function ReadMember(t: string, key: string, last: bool): Option<(Option<string>, string)>
  {
    match StripPrefix(t, MemberOpen(key))
    case None => None
    case Some(t1) =>
      match ReadValue(t1)
      case None => None
      case Some((v, t2)) =>
        match StripPrefix(t2, MemberClose(last))
        case None => None
        case Some(t3) => Some((v, t3))
  }

  /** Reads a member that must hold a string. */
  function ReadStringMember(t: string, key: string): Option<(string, string)>
  {
    match ReadMember(t, key, false)
    case Some((Some(s), rest)) => Some((s, rest))
    case _ => None
  }

  /** Reads string members with the given keys, in order. */
  function ReadStrings(t: string, keys: seq<string>): (r: Option<(seq<string>, string)>)
    ensures r.Some? ==> |r.value.0| == |keys|
    decreases keys
  {
    if keys == [] then Some(([], t))
    else
      match ReadStringMember(t, keys[0])
      case None => None
      case Some((v, t1)) =>
        match ReadStrings(t1, keys[1..])
        case None => None
        case Some((vs, t2)) => Some(([v] + vs, t2))
  }

  /** Reads a JSON export back into an entry. */
  function ReadJsonExport(t: string): Option<SummaryEntry>
  {
    match StripPrefix(t, "{\n")
    case None => None
    case Some(t0) =>
      match ReadStrings(t0, STRING_KEYS)
      case None => None
      case Some((vs, t1)) =>
        match ReadMember(t1, "originalFileName", true)
        case None => None
        case Some((name, t2)) =>
          if t2 == "}" then Some(SummaryEntry(vs[0], vs[1], vs[5], vs[2], vs[3], name, vs[4])) else None
  }

  /** A value reads back as itself, whatever follows it. */
  lemma ValueRoundTrip(v: Option<string>, rest: string)
    ensures ReadValue(JsonValue(v) + rest) == Some((v, rest))
  {
    match v
    case None =>
      StripPrefixAppend("null", rest);
    case Some(s) =>
      QuoteRoundTrip(s, rest);
      assert (Quote(s) + rest)[0] == '"';
      assert !StartsWith(Quote(s) + rest, "null");
  }

  /** A member line reads back as its value, whatever follows it. */
  lemma MemberRoundTrip(key: string, v: Option<string>, last: bool, rest: string)
    ensures ReadMember(Member(key, v, last) + rest, key, last) == Some((v, rest))
  {
    var open, value, close := MemberOpen(key), JsonValue(v), MemberClose(last);
    assert Member(key, v, last) + rest == open + (value + (close + rest));
    StripPrefixAppend(open, value + (close + rest));
    ValueRoundTrip(v, close + rest);
    StripPrefixAppend(close, rest);
  }

  lemma StringMemberRoundTrip(key: string, s: string, rest: string)
    ensures ReadStringMember(Member(key, Some(s), false) + rest, key) == Some((s, rest))
  {
    MemberRoundTrip(key, Some(s), false, rest);
  }

  lemma {:induction false} StringMembersRoundTrip(keys: seq<string>, values: seq<string>, rest: string)
    requires |keys| == |values|
    ensures ReadStrings(StringMembers(keys, values) + rest, keys) == Some((values, rest))
  {
    if keys == [] {
      assert StringMembers(keys, values) + rest == rest;
    } else {
      var tail := StringMembers(keys[1..], values[1..]) + rest;
      assert StringMembers(keys, values) + rest == Member(keys[0], Some(values[0]), false) + tail;
      StringMemberRoundTrip(keys[0], values[0], tail);
      StringMembersRoundTrip(keys[1..], values[1..], rest);
      assert [values[0]] + values[1..] == values;
    }
  }

  /** The JSON export reads back as the entry it was written from. */
  lemma JsonExportRoundTrip(e: SummaryEntry)
    ensures StartsWith(JsonExport(e), "{\n")
    ensures ReadJsonExport(JsonExport(e)) == Some(e)
  {
    var t1 := Member("originalFileName", e.originalFileName, true) + "}";
    var t0 := StringMembers(STRING_KEYS, StringValues(e)) + t1;
    StripPrefixAppend("{\n", t0);
    StringMembersRoundTrip(STRING_KEYS, StringValues(e), t1);
    MemberRoundTrip("originalFileName", e.originalFileName, true, "}");
  }

  // ---------------------------------------------------------------------------
  // Export file names

  datatype ExportFormat = Json | Csv | Pdf | Docx

  function Extension(f: ExportFormat): string
  {
    match f
    case Json => "json"
    case Csv => "csv"
    case Pdf => "pdf"
    case Docx => "docx"
  }

  /** `resumo_${name.replace(/\W/g, '_')}.${ext}`. */
  function FileName(name: string, ext: string): (r: string)
    ensures StartsWith(r, "resumo_") && EndsWith(r, "." + ext)
    ensures |r| == 7 + |name| + 1 + |ext|
    ensures forall i | 7 <= i < 7 + |name| :: IsWordChar(r[i])
    ensures forall i | 0 <= i < |name| :: IsWordChar(name[i]) ==> r[7 + i] == name[i]
    ensures forall i | 0 <= i < |name| :: !IsWordChar(name[i]) ==> r[7 + i] == '_'
  {
    var m := ReplaceNonWord(name);
    var r := "resumo_" + m + "." + ext;
    assert r[..7] == "resumo_";
    assert r[|r| - |"." + ext|..] == "." + ext;
    assert forall i | 0 <= i < |m| :: r[7 + i] == m[i];
    r
  }

  /** The name a history export is saved under: PDF and DOCX fall back to
      `Export` for an empty case number; JSON and CSV do not. */
  function ExportFileName(e: SummaryEntry, format: ExportFormat): string
  {
    var name := if (format == Pdf || format == Docx) && e.processNumber == "" then "Export" else e.processNumber;
    FileName(name, Extension(format))
  }

  /** The fallback applies exactly to PDF and DOCX exports of an entry without a case number. */
  lemma ExportFileNameFallback(e: SummaryEntry, format: ExportFormat)
    ensures e.processNumber == "" && (format == Pdf || format == Docx) ==>
      ExportFileName(e, format) == "resumo_Export." + Extension(format)
    ensures e.processNumber == "" && (format == Json || format == Csv) ==>
      ExportFileName(e, format) == "resumo_." + Extension(format)
    ensures e.processNumber != "" ==>
      ExportFileName(e, format) == "resumo_" + ReplaceNonWord(e.processNumber) + "." + Extension(format)
  {
    var ext := Extension(format);
    if e.processNumber == "" {
      ExportNameLiterals();
      if format == Pdf || format == Docx {
        ExportIsWord();
        assert ExportFileName(e, format) == ("resumo_" + "Export" + ".") + ext;
      } else {
        assert ReplaceNonWord("") == "";
        assert ExportFileName(e, format) == ("resumo_" + "" + ".") + ext;
      }
    } else {
      assert ExportFileName(e, format) == FileName(e.processNumber, ext);
    }
  }

  lemma ExportNameLiterals()
    ensures "resumo_" + "Export" + "." == "resumo_Export."
    ensures "resumo_" + "" + "." == "resumo_."
  {
  }

  lemma ExportIsWord()
    ensures ReplaceNonWord("Export") == "Export"
  {
    var e := "Export";
    forall i | 0 <= i < |e| ensures IsWordChar(e[i]) {
    }
    assert ReplaceNonWord(e) == e;
  }
}
