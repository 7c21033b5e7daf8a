/** The admin contact-list upload (`upload_csv` in the Flask backend): file filtering by
    extension, header detection, per-file phone de-duplication and round-robin assignment
    of the new records to the callers. Parsing CSV/Excel bytes is done by foreign
    libraries; here a file arrives already split into header names and rows. */
module Upload {
  import opened Wrappers
  import opened Text

  /** Header candidates for the phone column, in priority order. */
  const PhoneCandidates: seq<string> := ["phone", "mobile", "number", "contact", "cell", "telephone"]
  /** Header candidates for the name column, in priority order. */
  const NameCandidates: seq<string> := ["name", "customer", "client", "person", "full_name", "firstname"]
  /** The accepted file extensions, with their leading dot. */
  const AllowedExtensions: seq<string> := [".csv", ".xlsx", ".xls"]

  // ---------------------------------------------------------------------------
  // Header detection
  // ---------------------------------------------------------------------------

  /** A header as `find_column` compares it: lower-cased, then stripped. */
  function NormalizeHeader(col: string): string {
    PyStrip(Lower(col))
  }

  /** Candidate `candidate` accepts header `col`: one contains the other once the
      candidate is lower-cased and the header normalised. */
  predicate HeaderMatches(candidate: string, col: string) {
    IsSubstring(Lower(candidate), NormalizeHeader(col)) || IsSubstring(NormalizeHeader(col), Lower(candidate))
  }

  /** A position in the nested scan: candidate index and column index. */
  datatype Hit = Hit(cand: nat, col: nat)

  /** The relation `find_column` tests between a candidate and a header. */
  type Acceptance = (string, string) -> bool

  /** No candidate accepts any header. */
  predicate NoHeaderMatches(columns: seq<string>, candidates: seq<string>, accepts: Acceptance) {
    forall j, i :: 0 <= j < |candidates| && 0 <= i < |columns| ==> !accepts(candidates[j], columns[i])
  }

  /** `h` is the first accepting pair of the scan "for each candidate, for each column". */
  predicate IsFirstMatch(columns: seq<string>, candidates: seq<string>, accepts: Acceptance, h: Hit) {
    && h.cand < |candidates| && h.col < |columns|
    && accepts(candidates[h.cand], columns[h.col])
    && (forall j, i :: 0 <= j < h.cand && 0 <= i < |columns| ==> !accepts(candidates[j], columns[i]))
    && (forall i :: 0 <= i < h.col ==> !accepts(candidates[h.cand], columns[i]))
  }

  /** The first column at index `i` or later that `candidate` accepts. */
  function ScanColumns(columns: seq<string>, candidate: string, accepts: Acceptance, i: nat): (r: Option<nat>)
    requires i <= |columns|
    decreases |columns| - i
    ensures r.Some? ==> i <= r.value < |columns| && accepts(candidate, columns[r.value])
    ensures r.Some? ==> forall k :: i <= k < r.value ==> !accepts(candidate, columns[k])
    ensures r.None? ==> forall k :: i <= k < |columns| ==> !accepts(candidate, columns[k])
  {
    if i == |columns| then None
    else if accepts(candidate, columns[i]) then Some(i)
    else ScanColumns(columns, candidate, accepts, i + 1)
  }

  /** The first accepting pair, trying candidates from index `j` on. */
  function ScanCandidates(columns: seq<string>, candidates: seq<string>, accepts: Acceptance, j: nat): (r: Option<Hit>)
    requires j <= |candidates|
    requires forall j', i :: 0 <= j' < j && 0 <= i < |columns| ==> !accepts(candidates[j'], columns[i])
    decreases |candidates| - j
    ensures r.Some? ==> IsFirstMatch(columns, candidates, accepts, r.value)
    ensures r.None? ==> NoHeaderMatches(columns, candidates, accepts)
  {
    if j == |candidates| then None
    else
      match ScanColumns(columns, candidates[j], accepts, 0)
      case Some(i) => Some(Hit(j, i))
      case None => ScanCandidates(columns, candidates, accepts, j + 1)
  }

  /** `find_column`: the ORIGINAL header of the first column accepted by the
      highest-priority candidate that accepts any column, or `None`. */
  function FindColumn(columns: seq<string>, candidates: seq<string>): (r: Option<string>)
    ensures r.None? <==> NoHeaderMatches(columns, candidates, HeaderMatches)
    ensures r.Some? ==> exists h :: IsFirstMatch(columns, candidates, HeaderMatches, h) && r.value == columns[h.col]
  {
    match ScanCandidates(columns, candidates, HeaderMatches, 0)
    case Some(h) => Some(columns[h.col])
    case None => None
  }

  /** There is only one first match, so `FindColumn` is determined by the
      priority order alone. */
  lemma FirstMatchUnique(columns: seq<string>, candidates: seq<string>, accepts: Acceptance, h1: Hit, h2: Hit)
    requires IsFirstMatch(columns, candidates, accepts, h1) && IsFirstMatch(columns, candidates, accepts, h2)
    ensures h1 == h2
  {
  }

  /** A header that is blank after normalisation is contained in every candidate, so
      it is accepted by the very first candidate. */
  lemma BlankHeaderAlwaysMatches(columns: seq<string>, candidates: seq<string>, i: nat)
    requires i < |columns| && NormalizeHeader(columns[i]) == ""
    requires |candidates| > 0
    ensures FindColumn(columns, candidates).Some?
  {
    EmptyIsSubstring(Lower(candidates[0]));
    assert HeaderMatches(candidates[0], columns[i]);
  }

  /** Candidate priority beats column order: once the first candidate accepts some
      header, the header found is one the first candidate accepts, even when an
      earlier column would be accepted by a later candidate. */
  lemma FirstCandidateWins(columns: seq<string>, candidates: seq<string>, i: nat)
    requires |candidates| > 0 && i < |columns| && HeaderMatches(candidates[0], columns[i])
    ensures FindColumn(columns, candidates).Some?
    ensures HeaderMatches(candidates[0], FindColumn(columns, candidates).value)
  {
    var r := FindColumn(columns, candidates);
    var h :| IsFirstMatch(columns, candidates, HeaderMatches, h) && r.value == columns[h.col];
    assert h.cand == 0;
  }

  /** A detected column as the endpoint uses it: `if not phone_col` and `if name_col`
      treat a header that is the empty string like no column at all. */
  function DetectColumn(columns: seq<string>, candidates: seq<string>): (r: Option<string>)
    ensures r.Some? <==> FindColumn(columns, candidates).Some? && FindColumn(columns, candidates).value != ""
    ensures r.Some? ==> r.value == FindColumn(columns, candidates).value
  {
    match FindColumn(columns, candidates)
    case Some(col) => if col != "" then Some(col) else None
    case None => None
  }

  /** A leading column whose name is empty, as a spreadsheet's index column exported to
      CSV has, is the first match of every candidate list, so no column is detected
      at all, whatever the other headers are. */
  lemma EmptyFirstHeaderHidesColumns(columns: seq<string>, candidates: seq<string>)
    requires |columns| > 0 && columns[0] == "" && |candidates| > 0
    ensures FindColumn(columns, candidates) == Some("")
    ensures DetectColumn(columns, candidates).None?
  {
    assert NormalizeHeader("") == "" by {
      assert Lower("") == "";
      assert TrimStart("", IsPyWhitespace) == "";
    }
    BlankHeaderAlwaysMatches(columns, candidates, 0);
    EmptyIsSubstring(Lower(candidates[0]));
    assert HeaderMatches(candidates[0], columns[0]);
    var h :| IsFirstMatch(columns, candidates, HeaderMatches, h) && FindColumn(columns, candidates).value == columns[h.col];
    assert IsFirstMatch(columns, candidates, HeaderMatches, Hit(0, 0));
    FirstMatchUnique(columns, candidates, HeaderMatches, h, Hit(0, 0));
  }

  // ---------------------------------------------------------------------------
  // Extension filter
  // ---------------------------------------------------------------------------

  /** `name.split('.')[-1]`: the text after the last '.', or the whole name when it
      has no '.'. */
  function LastSegment(name: string): string {
    if |name| == 0 then ""
    else if name[|name| - 1] == '.' then ""
    else LastSegment(name[..|name| - 1]) + [name[|name| - 1]]
  }

  /** The last segment holds no '.'. */
  lemma {:induction false} LastSegmentNoDot(name: string)
    ensures '.' !in LastSegment(name)
  {
    if |name| > 0 && name[|name| - 1] != '.' {
      LastSegmentNoDot(name[..|name| - 1]);
    }
  }

  /** The last segment ends the name, and follows a '.' unless it is the whole name. */
  lemma {:induction false} LastSegmentSuffix(name: string)
    ensures |LastSegment(name)| <= |name| && LastSegment(name) == name[|name| - |LastSegment(name)|..]
    ensures |LastSegment(name)| < |name| ==> name[|name| - |LastSegment(name)| - 1] == '.'
  {
    if |name| > 0 && name[|name| - 1] != '.' {
      var m := |name| - 1;
      var p := name[..m];
      LastSegmentSuffix(p);
      var n := |LastSegment(p)|;
      assert name == p + [name[m]];
      SuffixOfAppend(p, name[m], m - n);
      if n < m {
        assert name[m - n - 1] == p[m - n - 1];
      }
    }
  }

  /** A suffix of `p + [c]` that starts inside `p` is a suffix of `p` followed by `c`. */
  lemma SuffixOfAppend(p: string, c: char, j: nat)
    requires j <= |p|
    ensures (p + [c])[j..] == p[j..] + [c]
  {
  }

  /** The last segment holds no '.', ends the name, and follows a '.' unless it is
      the whole name. */
  lemma LastSegmentShape(name: string)
    ensures '.' !in LastSegment(name)
    ensures |LastSegment(name)| <= |name| && LastSegment(name) == name[|name| - |LastSegment(name)|..]
    ensures |LastSegment(name)| < |name| ==> name[|name| - |LastSegment(name)| - 1] == '.'
  {
    LastSegmentNoDot(name);
    LastSegmentSuffix(name);
  }

  /** `'.' + name.split('.')[-1].lower()`. */
  function FileExtension(name: string): string {
    "." + Lower(LastSegment(name))
  }

  /** The extension test of the upload loop. */
  predicate ExtensionAllowed(name: string) {
    FileExtension(name) in AllowedExtensions
  }

  /** The segment after the last '.' is what `LastSegment` returns, whatever
      precedes that '.'. */
  lemma {:induction false} LastSegmentAfterDot(prefix: string, seg: string)
    requires forall i :: 0 <= i < |seg| ==> seg[i] != '.'
    ensures LastSegment(prefix + ['.'] + seg) == seg
  {
    var n := prefix + ['.'] + seg;
    if |seg| > 0 {
      var m := |seg| - 1;
      assert n[..|n| - 1] == prefix + ['.'] + seg[..m];
      LastSegmentAfterDot(prefix, seg[..m]);
      assert seg == seg[..m] + [seg[m]];
    }
  }

  /** A name without any '.' is its own last segment. */
  lemma {:induction false} DotlessNameIsItsOwnSegment(name: string)
    requires forall i :: 0 <= i < |name| ==> name[i] != '.'
    ensures LastSegment(name) == name
  {
    if |name| > 0 {
      var m := |name| - 1;
      DotlessNameIsItsOwnSegment(name[..m]);
      assert name == name[..m] + [name[m]];
    }
  }

  /** So a file called just "csv" or "XLS" passes the extension test exactly like
      "x.csv" or "y.XLS". */
  lemma DotlessNameTreatedAsExtension(name: string)
    requires forall i :: 0 <= i < |name| ==> name[i] != '.'
    ensures ExtensionAllowed(name) <==> ExtensionAllowed("x" + ['.'] + name)
  {
    DotlessNameIsItsOwnSegment(name);
    LastSegmentAfterDot("x", name);
  }

  // ---------------------------------------------------------------------------
  // Row extraction and per-file de-duplication
  // ---------------------------------------------------------------------------

  /** A parsed row: header name to cell. A missing cell (a short CSV row, an empty
      Excel cell) is `None`. */
  type Row = map<string, Option<string>>

  /** One phone/name pair taken from a row, before de-duplication. */
  datatype Entry = Entry(phone: string, name: string)

  /** `str(row.get(col, ''))` as the CSV branch writes it: a missing cell is `None`
      and `str(None)` is the text "None". */
  function CsvCellAsWritten(row: Row, col: string): string {
    if col in row then (match row[col] case Some(v) => v case None => "None") else ""
  }

  /** The cell text with a missing cell read as empty, as the Excel branch does with
      `dropna` and `pd.notna`. */
  function CellText(row: Row, col: string): (r: string)
    ensures col in row && row[col].Some? ==> r == row[col].value
    ensures !(col in row && row[col].Some?) ==> r == ""
  {
    if col in row then row[col].GetOr("") else ""
  }

  /** The phone/name pair of one row, given the detected columns. */
  function RowEntry(row: Row, phoneCol: string, nameCol: Option<string>): Entry {
    Entry(PyStrip(CellText(row, phoneCol)),
          if nameCol.Some? then PyStrip(CellText(row, nameCol.value)) else "")
  }

  /** The CSV loop's reading of one row as written, with `str(None)`. */
  function RowEntryAsWritten(row: Row, phoneCol: string, nameCol: Option<string>): Entry {
    Entry(PyStrip(CsvCellAsWritten(row, phoneCol)),
          if nameCol.Some? then PyStrip(CsvCellAsWritten(row, nameCol.value)) else "")
  }

  /** A short CSV row (no phone cell) is read by the code as written as the phone
      number "None", which is non-empty and is therefore uploaded as a contact. */
  lemma ShortCsvRowYieldsNonePhone()
    ensures RowEntryAsWritten(map["name" := Some("Asha"), "phone" := None], "phone", Some("name")).phone == "None"
  {
    var row: Row := map["name" := Some("Asha"), "phone" := None];
    assert CsvCellAsWritten(row, "phone") == "None";
    assert TrimStart("None", IsPyWhitespace) == "None";
    assert TrimEnd("None", IsPyWhitespace) == "None";
  }

  /** With the corrected reading a row without a phone cell yields an empty phone,
      which de-duplication drops. */
  lemma ShortRowHasEmptyPhone(row: Row, phoneCol: string, nameCol: Option<string>)
    requires phoneCol !in row || row[phoneCol].None?
    ensures RowEntry(row, phoneCol, nameCol).phone == ""
  {
  }

  /** The entries of all rows, in row order. */
  function RowEntries(rows: seq<Row>, phoneCol: string, nameCol: Option<string>): (r: seq<Entry>)
    ensures |r| == |rows|
    ensures forall i :: 0 <= i < |rows| ==> r[i] == RowEntry(rows[i], phoneCol, nameCol)
  {
    seq(|rows|, i requires 0 <= i < |rows| => RowEntry(rows[i], phoneCol, nameCol))
  }

  /** Entry `i` carries a non-empty phone seen in no earlier entry. */
  predicate FirstOccurrence(entries: seq<Entry>, i: int)
    requires 0 <= i < |entries|
  {
    entries[i].phone != "" && forall k :: 0 <= k < i ==> entries[k].phone != entries[i].phone
  }

  /** The phones of the first `n` entries. */
  function PhonesUpTo(entries: seq<Entry>, n: nat): set<string>
    requires n <= |entries|
  {
    set i | 0 <= i < n :: entries[i].phone
  }

  lemma PhonesUpToNext(entries: seq<Entry>, n: nat)
    requires n < |entries|
    ensures PhonesUpTo(entries, n + 1) == PhonesUpTo(entries, n) + {entries[n].phone}
  {
  }

  /** The phones of all entries. */
  function PhonesOf(entries: seq<Entry>): set<string> {
    PhonesUpTo(entries, |entries|)
  }

  lemma PhonesOfAppend(a: seq<Entry>, b: seq<Entry>)
    ensures PhonesOf(a + b) == PhonesOf(a) + PhonesOf(b)
  {
    var ab := a + b;
    forall p | p in PhonesOf(ab) ensures p in PhonesOf(a) + PhonesOf(b) {
      var i :| 0 <= i < |ab| && ab[i].phone == p;
      if i >= |a| {
        assert b[i - |a|].phone == p;
      }
    }
    forall p | p in PhonesOf(b) ensures p in PhonesOf(ab) {
      var i :| 0 <= i < |b| && b[i].phone == p;
      assert ab[|a| + i].phone == p;
    }
    forall p | p in PhonesOf(a) ensures p in PhonesOf(ab) {
      var i :| 0 <= i < |a| && a[i].phone == p;
      assert ab[i].phone == p;
    }
  }

  /** The first entry of each non-empty phone, in input order. */
  function Dedup(entries: seq<Entry>): seq<Entry> {
    if |entries| == 0 then []
    else
      var n := |entries| - 1;
      Dedup(entries[..n]) + (if FirstOccurrence(entries, n) then [entries[n]] else [])
  }

  /** One more entry is kept exactly when it is the first occurrence of its phone. */
  lemma DedupNext(entries: seq<Entry>, i: nat)
    requires i < |entries|
    ensures Dedup(entries[..i + 1]) == Dedup(entries[..i]) + (if FirstOccurrence(entries, i) then [entries[i]] else [])
  {
    assert entries[..i + 1][..i] == entries[..i];
    assert FirstOccurrence(entries[..i + 1], i) == FirstOccurrence(entries, i);
  }

  /** De-duplication keeps every non-empty phone once and nothing else. */
  lemma {:induction false} DedupFacts(entries: seq<Entry>)
    ensures PhonesOf(Dedup(entries)) == PhonesOf(entries) - {""}
    ensures forall k :: 0 <= k < |Dedup(entries)| ==> Dedup(entries)[k].phone != ""
    ensures forall k, l :: 0 <= k < l < |Dedup(entries)| ==> Dedup(entries)[k].phone != Dedup(entries)[l].phone
  {
    if |entries| > 0 {
      var m := |entries| - 1;
      var prefix := entries[..m];
      DedupFacts(prefix);
      PhonesUpToPrefix(entries, m, m);
      PhonesUpToNext(entries, m);
      var added := if FirstOccurrence(entries, m) then [entries[m]] else [];
      PhonesOfAppend(Dedup(prefix), added);
      var e := entries[m];
      if e.phone != "" && e.phone !in PhonesOf(prefix) {
        forall k | 0 <= k < m ensures entries[k].phone != e.phone {
          assert entries[k] == prefix[k];
        }
        assert FirstOccurrence(entries, m);
      }
      if FirstOccurrence(entries, m) {
        assert e.phone !in PhonesOf(prefix);
        assert added[0].phone == e.phone;
        assert PhonesOf(added) == {e.phone};
      } else {
        assert PhonesOf(added) == {};
      }
    }
  }

  /** De-duplication keeps only entries of the input, and keeps the first entry of
      every non-empty phone. */
  lemma {:induction false} DedupMembers(entries: seq<Entry>)
    ensures forall k :: 0 <= k < |Dedup(entries)| ==> Dedup(entries)[k] in entries
    ensures forall i :: 0 <= i < |entries| && FirstOccurrence(entries, i) ==> entries[i] in Dedup(entries)
  {
    if |entries| > 0 {
      var m := |entries| - 1;
      var prefix := entries[..m];
      DedupMembers(prefix);
      var kept := Dedup(entries);
      assert kept == Dedup(prefix) + (if FirstOccurrence(entries, m) then [entries[m]] else []);
      forall k | 0 <= k < |kept| ensures kept[k] in entries {
        if k < |Dedup(prefix)| {
          assert kept[k] == Dedup(prefix)[k];
          var j :| 0 <= j < |prefix| && prefix[j] == kept[k];
          assert entries[j] == kept[k];
        }
      }
      forall i | 0 <= i < |entries| && FirstOccurrence(entries, i) ensures entries[i] in kept {
        if i < m {
          assert FirstOccurrence(prefix, i);
          assert prefix[i] == entries[i];
          var k :| 0 <= k < |Dedup(prefix)| && Dedup(prefix)[k] == entries[i];
          assert kept[k] == entries[i];
        } else {
          assert kept[|kept| - 1] == entries[i];
        }
      }
    }
  }

  /** The state of the `seen_phones` loop after the first `i` entries: the phones
      seen, the entries kept and, for each kept entry, its position in the input. */
  predicate DedupAfter(entries: seq<Entry>, i: nat, seen: set<string>, kept: seq<Entry>, origin: seq<nat>)
    requires i <= |entries|
  {
    && |kept| == |origin|
    && seen == PhonesUpTo(entries, i) - {""}
    && kept == Dedup(entries[..i])
    && (forall k :: 0 <= k < |origin| ==>
          origin[k] < i && kept[k] == entries[origin[k]] && FirstOccurrence(entries, origin[k]))
    && (forall k, l :: 0 <= k < l < |origin| ==> origin[k] < origin[l])
    && (forall j :: 0 <= j < i && FirstOccurrence(entries, j) ==> j in origin)
  }

  /** A non-empty phone not seen yet is the first occurrence of its phone. */
  lemma UnseenIsFirst(entries: seq<Entry>, i: nat, seen: set<string>)
    requires i < |entries|
    requires seen == PhonesUpTo(entries, i) - {""}
    requires entries[i].phone != "" && entries[i].phone !in seen
    ensures FirstOccurrence(entries, i)
  {
    forall k | 0 <= k < i ensures entries[k].phone != entries[i].phone {
      assert entries[k].phone in PhonesUpTo(entries, i);
    }
  }

  /** Keeping the first occurrence of a phone moves the loop state one entry on. */
  lemma DedupKeepStep(entries: seq<Entry>, i: nat, seen: set<string>, kept: seq<Entry>, origin: seq<nat>)
    requires i < |entries| && DedupAfter(entries, i, seen, kept, origin)
    requires entries[i].phone != "" && entries[i].phone !in seen
    ensures DedupAfter(entries, i + 1, seen + {entries[i].phone}, kept + [entries[i]], origin + [i])
  {
    PhonesUpToNext(entries, i);
    DedupNext(entries, i);
    UnseenIsFirst(entries, i, seen);
    var origin' := origin + [i];
    forall j | 0 <= j < i + 1 && FirstOccurrence(entries, j) ensures j in origin' {
      if j < i {
        assert j in origin;
      }
    }
  }

  /** Passing over an empty or already seen phone moves the loop state one entry on. */
  lemma DedupSkipStep(entries: seq<Entry>, i: nat, seen: set<string>, kept: seq<Entry>, origin: seq<nat>)
    requires i < |entries| && DedupAfter(entries, i, seen, kept, origin)
    requires entries[i].phone == "" || entries[i].phone in seen
    ensures DedupAfter(entries, i + 1, seen, kept, origin)
  {
    PhonesUpToNext(entries, i);
    DedupNext(entries, i);
    if entries[i].phone != "" {
      var k :| 0 <= k < i && entries[k].phone == entries[i].phone;
      assert !FirstOccurrence(entries, i);
    }
  }

  /** The `seen_phones` loop: keeps the first entry of each non-empty phone, in order.
      `origin[k]` is the position of `kept[k]` among the input entries. */
  method DedupPhones(entries: seq<Entry>) returns (kept: seq<Entry>, origin: seq<nat>)
    ensures |kept| == |origin|
    ensures forall k :: 0 <= k < |origin| ==>
      origin[k] < |entries| && kept[k] == entries[origin[k]] && FirstOccurrence(entries, origin[k])
    ensures forall k, l :: 0 <= k < l < |origin| ==> origin[k] < origin[l]
    ensures forall i :: 0 <= i < |entries| && FirstOccurrence(entries, i) ==> i in origin
    ensures forall k, l :: 0 <= k < l < |kept| ==> kept[k].phone != kept[l].phone
    ensures forall k :: 0 <= k < |kept| ==> kept[k].phone != ""
    ensures kept == Dedup(entries)
  {
    var seen: set<string> := {};
    kept, origin := [], [];
    var i := 0;
    while i < |entries|
      invariant 0 <= i <= |entries|
      invariant DedupAfter(entries, i, seen, kept, origin)
    {
      var e := entries[i];
      if e.phone != "" && e.phone !in seen {
        DedupKeepStep(entries, i, seen, kept, origin);
        seen := seen + {e.phone};
        kept := kept + [e];
        origin := origin + [i];
      } else {
        DedupSkipStep(entries, i, seen, kept, origin);
      }
      i := i + 1;
    }
    assert entries[..i] == entries;
    DedupFacts(entries);
  }

  // ---------------------------------------------------------------------------
  // Round-robin assignment
  // ---------------------------------------------------------------------------

  /** What happened to one de-duplicated entry. */
  datatype Outcome = Skipped | Added(callerId: nat)

  /** A `Record` row the upload inserts: assigned caller, phone and name. */
  datatype NewRecord = NewRecord(callerId: nat, phone: string, name: string)

  /** The records created for some entries, given their outcomes, in order. */
  function CreatedFrom(entries: seq<Entry>, outcomes: seq<Outcome>): seq<NewRecord>
    requires |entries| == |outcomes|
  {
    if |entries| == 0 then []
    else
      var n := |entries| - 1;
      CreatedFrom(entries[..n], outcomes[..n])
      + (match outcomes[n]
         case Added(c) => [NewRecord(c, entries[n].phone, entries[n].name)]
         case Skipped => [])
  }

  /** Number of skipped entries. */
  function CountSkipped(outcomes: seq<Outcome>): nat {
    if |outcomes| == 0 then 0
    else CountSkipped(outcomes[..|outcomes| - 1]) + (if outcomes[|outcomes| - 1].Skipped? then 1 else 0)
  }

  /** The outcome rule of the per-file loop: entry `i` is skipped exactly when its
      phone is already stored, counting records added earlier in the same request,
      and otherwise goes to `callers[i % |callers|]`; the index also counts skipped
      entries. */
  predicate RoundRobinOutcomes(entries: seq<Entry>, callers: seq<nat>, existing: set<string>, outcomes: seq<Outcome>)
    requires |callers| > 0
  {
    && |outcomes| == |entries|
    && (forall i :: 0 <= i < |entries| ==>
          (outcomes[i].Skipped? <==> entries[i].phone in existing + PhonesUpTo(entries, i)))
    && (forall i :: 0 <= i < |entries| && outcomes[i].Added? ==> outcomes[i].callerId == callers[i % |callers|])
  }

  /** The outcome the round-robin rule gives entry `i`. */
  function OutcomeAt(entries: seq<Entry>, callers: seq<nat>, existing: set<string>, i: nat): Outcome
    requires |callers| > 0 && i < |entries|
  {
    if entries[i].phone in existing + PhonesUpTo(entries, i) then Skipped else Added(callers[i % |callers|])
  }

  /** Every entry is either created or skipped. */
  lemma {:induction false} CreatedPlusSkipped(entries: seq<Entry>, outcomes: seq<Outcome>)
    requires |entries| == |outcomes|
    ensures |CreatedFrom(entries, outcomes)| + CountSkipped(outcomes) == |entries|
  {
    if |entries| > 0 {
      var m := |entries| - 1;
      CreatedPlusSkipped(entries[..m], outcomes[..m]);
    }
  }

  /** The phones of a prefix are those of the same entries in the whole list. */
  lemma PhonesUpToPrefix(entries: seq<Entry>, m: nat, i: nat)
    requires i <= m <= |entries|
    ensures PhonesUpTo(entries[..m], i) == PhonesUpTo(entries, i)
  {
    assert forall k :: 0 <= k < i ==> entries[..m][k] == entries[k];
  }

  /** When every added entry goes to one of `callers` and carries a phone stored
      neither before nor by an earlier entry, the created records are safe. */
  lemma {:induction false} CreatedFromSafe(entries: seq<Entry>, outcomes: seq<Outcome>, callers: seq<nat>,
                                           existing: set<string>)
    requires |entries| == |outcomes|
    requires forall i :: 0 <= i < |entries| && outcomes[i].Added? ==>
      outcomes[i].callerId in callers && entries[i].phone !in existing + PhonesUpTo(entries, i)
    ensures CreatedSafely(CreatedFrom(entries, outcomes), callers, existing, existing + PhonesOf(entries))
  {
    if |entries| > 0 {
      var m := |entries| - 1;
      var es, os := entries[..m], outcomes[..m];
      forall i | 0 <= i < m && os[i].Added?
        ensures os[i].callerId in callers && es[i].phone !in existing + PhonesUpTo(es, i)
      {
        PhonesUpToPrefix(entries, m, i);
      }
      CreatedFromSafe(es, os, callers, existing);
      PhonesUpToPrefix(entries, m, m);
      PhonesUpToNext(entries, m);
      var mid := existing + PhonesOf(es);
      var added := match outcomes[m]
        case Added(c) => [NewRecord(c, entries[m].phone, entries[m].name)]
        case Skipped => [];
      assert CreatedSafely(added, callers, mid, existing + PhonesOf(entries));
      CreatedSafelyAppend(CreatedFrom(es, os), added, callers, existing, mid, existing + PhonesOf(entries));
    }
  }

  /** The per-file loop of `upload_csv`: each entry's outcome under the round-robin
      rule, and the phones stored afterwards. */
  method AssignOutcomes(entries: seq<Entry>, callers: seq<nat>, existing: set<string>)
    returns (outcomes: seq<Outcome>, stored: set<string>)
    requires |callers| > 0
    ensures RoundRobinOutcomes(entries, callers, existing, outcomes)
    ensures stored == existing + PhonesOf(entries)
  {
    outcomes, stored := [], existing;
    var i := 0;
    while i < |entries|
      invariant 0 <= i <= |entries|
      invariant |outcomes| == i
      invariant stored == existing + PhonesUpTo(entries, i)
      invariant forall k :: 0 <= k < i ==> outcomes[k] == OutcomeAt(entries, callers, existing, k)
    {
      var e := entries[i];
      PhonesUpToNext(entries, i);
      var o := if e.phone in stored then Skipped else Added(callers[i % |callers|]);
      assert o == OutcomeAt(entries, callers, existing, i);
      outcomes := outcomes + [o];
      stored := stored + {e.phone};
      i := i + 1;
    }
    forall k | 0 <= k < |entries|
      ensures outcomes[k].Skipped? <==> entries[k].phone in existing + PhonesUpTo(entries, k)
      ensures outcomes[k].Added? ==> outcomes[k].callerId == callers[k % |callers|]
    {
      assert outcomes[k] == OutcomeAt(entries, callers, existing, k);
    }
  }

  /** One file's assignment: the outcomes, the records created and the phones stored
      afterwards; the records go to the given callers, are new to the store and
      carry distinct phones. */
  method AssignFile(entries: seq<Entry>, callers: seq<nat>, existing: set<string>)
    returns (outcomes: seq<Outcome>, created: seq<NewRecord>, stored: set<string>)
    requires |callers| > 0
    ensures RoundRobinOutcomes(entries, callers, existing, outcomes)
    ensures created == CreatedFrom(entries, outcomes)
    ensures |created| + CountSkipped(outcomes) == |entries|
    ensures stored == existing + PhonesOf(entries)
    ensures CreatedSafely(created, callers, existing, stored)
  {
    outcomes, stored := AssignOutcomes(entries, callers, existing);
    created := CreatedFrom(entries, outcomes);
    CreatedPlusSkipped(entries, outcomes);
    CreatedFromSafe(entries, outcomes, callers, existing);
  }

  // ---------------------------------------------------------------------------
  // Files and the whole request
  // ---------------------------------------------------------------------------

  /** Records created in one request: assigned to a caller, new to the store before
      the request, stored afterwards, and with pairwise distinct phones. */
  predicate CreatedSafely(created: seq<NewRecord>, callers: seq<nat>, existing: set<string>, stored: set<string>) {
    && (forall k :: 0 <= k < |created| ==>
          created[k].phone !in existing && created[k].phone in stored && created[k].callerId in callers)
    && (forall k, l :: 0 <= k < l < |created| ==> created[k].phone != created[l].phone)
  }

  /** Appending the records of the next file keeps the request's records safe. */
  lemma CreatedSafelyAppend(a: seq<NewRecord>, b: seq<NewRecord>, callers: seq<nat>,
                            existing: set<string>, mid: set<string>, stored: set<string>)
    requires existing <= mid <= stored
    requires CreatedSafely(a, callers, existing, mid)
    requires CreatedSafely(b, callers, mid, stored)
    ensures CreatedSafely(a + b, callers, existing, stored)
  {
  }

  /** What the CSV reader makes of a file's bytes. */
  datatype CsvRead =
    | CsvParsed(fields: seq<string>, rows: seq<Row>)
    | CsvUnreadable                                       // bytes not UTF-8, or no header line

  /** What `pandas.read_excel` makes of a file's bytes. */
  datatype ExcelRead =
    | ExcelParsed(fields: seq<string>, rows: seq<Row>)
    | ExcelUnsupported                                    // pandas not installed
    | ExcelUnreadable                                     // pandas raised

  /** One uploaded file, with what each reader would make of its bytes; the
      extension decides which reader runs. */
  datatype FileIn = FileIn(filename: string, csv: CsvRead, excel: ExcelRead)

  /** The CSV reader runs exactly for the extension ".csv"; every other allowed
      extension goes to the Excel reader. */
  predicate IsCsvName(name: string) {
    FileExtension(name) == ".csv"
  }

  /** Where the upload loop sends a file: refused, to the CSV reader or to pandas. */
  datatype Route = Refuse | ToCsv | ToExcel

  /** The route a file name takes by its extension. */
  function RouteOf(name: string): (r: Route)
    ensures r.Refuse? <==> !ExtensionAllowed(name)
    ensures r.ToCsv? <==> IsCsvName(name)
  {
    var ext := FileExtension(name);
    if ext !in AllowedExtensions then Refuse else if ext == ".csv" then ToCsv else ToExcel
  }

  /** Why a file was refused; each becomes one `status: 'error'` entry. */
  datatype FileError = InvalidFileType | NoPhoneColumn | ExcelSupportMissing | ReadError | NoValidRecords

  /** One entry of `file_results`. */
  datatype FileResult =
    | FileFailed(failedName: string, reason: FileError)
    | FileSucceeded(name: string, recordsFound: nat, recordsAdded: nat, skippedDuplicates: nat)

  /** What processing one file produced. */
  datatype FileStep =
    | Ignored                                            // empty filename: no entry at all
    | Crashed                                            // an exception escapes the file loop
    | Reported(result: FileResult, created: seq<NewRecord>, stored: set<string>)

  /** The de-duplicated entries of a parsed table, or None when no phone column is
      detected. */
  function ReadEntries(fields: seq<string>, rows: seq<Row>): (r: Option<seq<Entry>>)
    ensures r.None? <==> DetectColumn(fields, PhoneCandidates).None?
  {
    match DetectColumn(fields, PhoneCandidates)
    case None => None
    case Some(phoneCol) => Some(Dedup(RowEntries(rows, phoneCol, DetectColumn(fields, NameCandidates))))
  }

  /** What the entries read from a table are: one entry of its rows per non-empty
      phone, the first row that carries it, and nothing else. */
  lemma ReadEntriesFacts(fields: seq<string>, rows: seq<Row>)
    requires DetectColumn(fields, PhoneCandidates).Some?
    ensures var es := ReadEntries(fields, rows).value;
      var all := RowEntries(rows, DetectColumn(fields, PhoneCandidates).value, DetectColumn(fields, NameCandidates));
      && PhonesOf(es) == PhonesOf(all) - {""}
      && (forall k :: 0 <= k < |es| ==> es[k] in all && es[k].phone != "")
      && (forall k, l :: 0 <= k < l < |es| ==> es[k].phone != es[l].phone)
      && (forall i :: 0 <= i < |all| && FirstOccurrence(all, i) ==> all[i] in es)
  {
    var all := RowEntries(rows, DetectColumn(fields, PhoneCandidates).value, DetectColumn(fields, NameCandidates));
    DedupFacts(all);
    DedupMembers(all);
  }

  /** How a file ends up, decided from its name and what its reader produced. */
  datatype FileKind = Unnamed | Aborts | Fails(reason: FileError) | Ready(entries: seq<Entry>)

  /** The parsed table of the reader the extension selects, if it parsed. */
  function TableOf(file: FileIn): Option<(seq<string>, seq<Row>)> {
    if RouteOf(file.filename).ToCsv? then
      (match file.csv case CsvParsed(fields, rows) => Some((fields, rows)) case CsvUnreadable => None)
    else
      (match file.excel case ExcelParsed(fields, rows) => Some((fields, rows)) case _ => None)
  }

  /** The fate of one file: ignored without a name, refused by extension, a crash
      for unreadable CSV, an Excel error, or the outcome of reading its table. */
  function Classify(file: FileIn): (r: FileKind)
    ensures r.Unnamed? <==> file.filename == ""
    ensures r.Ready? ==> |r.entries| > 0
  {
    var name := file.filename;
    if name == "" then Unnamed
    else
      match RouteOf(name)
      case Refuse => Fails(InvalidFileType)
      case ToCsv =>
        (match file.csv
         case CsvUnreadable => Aborts
         case CsvParsed(fields, rows) => TableKind(fields, rows))
      case ToExcel =>
        (match file.excel
         case ExcelUnsupported => Fails(ExcelSupportMissing)
         case ExcelUnreadable => Fails(ReadError)
         case ExcelParsed(fields, rows) => TableKind(fields, rows))
  }

  /** The fate of a file whose table was parsed. */
  function TableKind(fields: seq<string>, rows: seq<Row>): (r: FileKind)
    ensures r.Fails? || r.Ready?
    ensures r.Ready? ==> |r.entries| > 0
  {
    match ReadEntries(fields, rows)
    case None => Fails(NoPhoneColumn)
    case Some(es) => if |es| == 0 then Fails(NoValidRecords) else Ready(es)
  }

  /** The errors decided before any table is read: the extension check first, then
      the reader the extension selects. */
  lemma ClassifyEarlyExits(file: FileIn)
    requires file.filename != ""
    ensures !ExtensionAllowed(file.filename) ==> Classify(file) == Fails(InvalidFileType)
    ensures Classify(file).Aborts? <==>
      ExtensionAllowed(file.filename) && IsCsvName(file.filename) && file.csv.CsvUnreadable?
    ensures ExtensionAllowed(file.filename) && !IsCsvName(file.filename) ==>
      && (file.excel.ExcelUnsupported? ==> Classify(file) == Fails(ExcelSupportMissing))
      && (file.excel.ExcelUnreadable? ==> Classify(file) == Fails(ReadError))
  {
    match RouteOf(file.filename)
    case Refuse =>
    case ToCsv =>
      if file.csv.CsvParsed? {
        assert Classify(file) == TableKind(file.csv.fields, file.csv.rows);
      }
    case ToExcel =>
      if file.excel.ExcelParsed? {
        assert Classify(file) == TableKind(file.excel.fields, file.excel.rows);
      }
  }

  /** A parsed table with an allowed name is judged by its entries alone: no phone
      column, no entries, or the entries to assign. */
  lemma ClassifyParsedTable(file: FileIn)
    requires file.filename != "" && ExtensionAllowed(file.filename) && TableOf(file).Some?
    ensures var es := ReadEntries(TableOf(file).value.0, TableOf(file).value.1);
      && (es.None? ==> Classify(file) == Fails(NoPhoneColumn))
      && (es.Some? && |es.value| == 0 ==> Classify(file) == Fails(NoValidRecords))
      && (es.Some? && |es.value| > 0 ==> Classify(file) == Ready(es.value))
  {
    if RouteOf(file.filename).ToCsv? {
      assert file.csv.CsvParsed?;
    } else {
      assert file.excel.ExcelParsed?;
    }
  }

  /** The round-robin outcomes of some entries. */
  function RoundRobin(entries: seq<Entry>, callers: seq<nat>, existing: set<string>): (os: seq<Outcome>)
    requires |callers| > 0
    ensures RoundRobinOutcomes(entries, callers, existing, os)
  {
    seq(|entries|, i requires 0 <= i < |entries| => OutcomeAt(entries, callers, existing, i))
  }

  /** The round-robin rule leaves no choice: it fixes every outcome. */
  lemma RoundRobinUnique(entries: seq<Entry>, callers: seq<nat>, existing: set<string>, os: seq<Outcome>)
    requires |callers| > 0
    requires RoundRobinOutcomes(entries, callers, existing, os)
    ensures os == RoundRobin(entries, callers, existing)
  {
    var rr := RoundRobin(entries, callers, existing);
    forall i | 0 <= i < |entries| ensures os[i] == rr[i] {
      if os[i].Added? {
        assert rr[i].Added?;
      }
    }
  }

  /** What one file does to the request, decided by its classification: nothing for
      an unnamed file, a crash for an aborting one, an error entry for a refused one,
      and for a ready one the round-robin records over the phones stored so far. */
  function FileStepOf(file: FileIn, callers: seq<nat>, stored: set<string>): (step: FileStep)
    requires |callers| > 0
    ensures step.Reported? ==> stored <= step.stored
  {
    match Classify(file)
    case Unnamed => Ignored
    case Aborts => Crashed
    case Fails(e) => Reported(FileFailed(file.filename, e), [], stored)
    case Ready(es) =>
      var os := RoundRobin(es, callers, stored);
      Reported(FileSucceeded(file.filename, |es|, |CreatedFrom(es, os)|, CountSkipped(os)),
               CreatedFrom(es, os), stored + PhonesOf(es))
  }

  /** The body of the `for file in files` loop. */
  method ProcessFile(file: FileIn, callers: seq<nat>, existing: set<string>) returns (step: FileStep)
    requires |callers| > 0
    ensures step.Ignored? <==> Classify(file).Unnamed?
    ensures step.Crashed? <==> Classify(file).Aborts?
    ensures Classify(file).Fails? ==>
      step == Reported(FileFailed(file.filename, Classify(file).reason), [], existing)
    ensures Classify(file).Ready? ==>
      var es := Classify(file).entries;
      var os := RoundRobin(es, callers, existing);
      step == Reported(FileSucceeded(file.filename, |es|, |CreatedFrom(es, os)|, CountSkipped(os)),
                       CreatedFrom(es, os), existing + PhonesOf(es))
    ensures step.Reported? && step.result.FileSucceeded? ==>
      && step.result.recordsAdded == |step.created|
      && step.result.recordsAdded + step.result.skippedDuplicates == step.result.recordsFound
    ensures step.Reported? ==> existing <= step.stored
    ensures step.Reported? ==> CreatedSafely(step.created, callers, existing, step.stored)
    ensures step == FileStepOf(file, callers, existing)
  {
    var name := file.filename;
    if name == "" {
      return Ignored;
    }
    if !ExtensionAllowed(name) {
      assert Classify(file) == Fails(InvalidFileType);
      return Reported(FileFailed(name, InvalidFileType), [], existing);
    }
    var fields: seq<string>, rows: seq<Row>;
    if IsCsvName(name) {
      match file.csv {
        case CsvUnreadable =>
          assert Classify(file) == Aborts;
          return Crashed;
        case CsvParsed(fs, rs) =>
          fields, rows := fs, rs;
      }
    } else {
      match file.excel {
        case ExcelUnsupported =>
          assert Classify(file) == Fails(ExcelSupportMissing);
          return Reported(FileFailed(name, ExcelSupportMissing), [], existing);
        case ExcelUnreadable =>
          assert Classify(file) == Fails(ReadError);
          return Reported(FileFailed(name, ReadError), [], existing);
        case ExcelParsed(fs, rs) =>
          fields, rows := fs, rs;
      }
    }
    assert TableOf(file) == Some((fields, rows));
    var entries := ReadEntries(fields, rows);
    if entries.None? {
      assert Classify(file) == Fails(NoPhoneColumn);
      return Reported(FileFailed(name, NoPhoneColumn), [], existing);
    }
    if |entries.value| == 0 {
      assert Classify(file) == Fails(NoValidRecords);
      return Reported(FileFailed(name, NoValidRecords), [], existing);
    }
    var outcomes, created, stored := AssignFile(entries.value, callers, existing);
    RoundRobinUnique(entries.value, callers, existing, outcomes);
    assert Classify(file) == Ready(entries.value);
    var skipped := CountSkipped(outcomes);
    return Reported(FileSucceeded(name, |entries.value|, |created|, skipped), created, stored);
  }

  /** The JSON answer of the upload endpoint. */
  datatype UploadResponse =
    | Refused(status: nat)
    | ServerError
    | Uploaded(totalAdded: nat, totalSkipped: nat, filesProcessed: nat, filesFailed: nat,
               results: seq<FileResult>, created: seq<NewRecord>)

  function CountSucceeded(results: seq<FileResult>): nat {
    if |results| == 0 then 0
    else CountSucceeded(results[..|results| - 1]) + (if results[|results| - 1].FileSucceeded? then 1 else 0)
  }

  function CountFailed(results: seq<FileResult>): nat {
    if |results| == 0 then 0
    else CountFailed(results[..|results| - 1]) + (if results[|results| - 1].FileFailed? then 1 else 0)
  }

  /** The files with a non-empty filename, in order: the only ones that get a result. */
  function NamedFiles(files: seq<FileIn>): seq<FileIn> {
    if |files| == 0 then []
    else NamedFiles(files[..|files| - 1]) + (if files[|files| - 1].filename != "" then [files[|files| - 1]] else [])
  }

  /** One more file adds itself to the named files exactly when it has a name. */
  lemma NamedFilesNext(files: seq<FileIn>, f: nat)
    requires f < |files|
    ensures NamedFiles(files[..f + 1]) == NamedFiles(files[..f]) + (if files[f].filename != "" then [files[f]] else [])
  {
    assert files[..f + 1][..f] == files[..f];
  }

  /** Records added over the successful results. */
  function SumAdded(results: seq<FileResult>): nat {
    if |results| == 0 then 0
    else
      var last := results[|results| - 1];
      SumAdded(results[..|results| - 1]) + (if last.FileSucceeded? then last.recordsAdded else 0)
  }

  /** Duplicates skipped over the successful results. */
  function SumSkipped(results: seq<FileResult>): nat {
    if |results| == 0 then 0
    else
      var last := results[|results| - 1];
      SumSkipped(results[..|results| - 1]) + (if last.FileSucceeded? then last.skippedDuplicates else 0)
  }

  /** A result entry fits its file: the file's error, or a success that names the
      file, reports its entry count and accounts for every entry. */
  predicate ResultFits(file: FileIn, result: FileResult) {
    match Classify(file)
    case Fails(e) => result == FileFailed(file.filename, e)
    case Ready(es) =>
      && result.FileSucceeded?
      && result.name == file.filename
      && result.recordsFound == |es|
      && result.recordsAdded + result.skippedDuplicates == |es|
    case _ => false
  }

  /** A fitting result for the next named file extends the fitting results. */
  lemma FitsExtend(files: seq<FileIn>, f: nat, results: seq<FileResult>, result: FileResult)
    requires f < |files| && files[f].filename != ""
    requires |results| == |NamedFiles(files[..f])|
    requires forall k :: 0 <= k < |results| ==> ResultFits(NamedFiles(files[..f])[k], results[k])
    requires ResultFits(files[f], result)
    ensures |results + [result]| == |NamedFiles(files[..f + 1])|
    ensures forall k :: 0 <= k < |results| + 1 ==> ResultFits(NamedFiles(files[..f + 1])[k], (results + [result])[k])
  {
    NamedFilesNext(files, f);
    var named := NamedFiles(files[..f]);
    forall k | 0 <= k < |results| + 1 ensures ResultFits(NamedFiles(files[..f + 1])[k], (results + [result])[k]) {
      if k < |results| {
        assert NamedFiles(files[..f + 1])[k] == named[k];
        assert (results + [result])[k] == results[k];
      }
    }
  }

  /** An unnamed file leaves the fitting results as they are. */
  lemma FitsSkip(files: seq<FileIn>, f: nat, results: seq<FileResult>)
    requires f < |files| && files[f].filename == ""
    requires |results| == |NamedFiles(files[..f])|
    requires forall k :: 0 <= k < |results| ==> ResultFits(NamedFiles(files[..f])[k], results[k])
    ensures |results| == |NamedFiles(files[..f + 1])|
    ensures forall k :: 0 <= k < |results| ==> ResultFits(NamedFiles(files[..f + 1])[k], results[k])
  {
    NamedFilesNext(files, f);
  }

  /** Every file with a name is among the named files. */
  lemma {:induction false} NamedFileListed(files: seq<FileIn>, j: nat)
    requires j < |files| && files[j].filename != ""
    ensures files[j] in NamedFiles(files)
  {
    var m := |files| - 1;
    if j < m {
      NamedFileListed(files[..m], j);
      assert files[..m][j] == files[j];
    }
  }

  /** A fitting result for every named file means no file aborts: an unnamed file
      never does, and no result fits an aborting one. */
  lemma NoAbortWhenAllFit(files: seq<FileIn>, results: seq<FileResult>)
    requires |results| == |NamedFiles(files)|
    requires forall k :: 0 <= k < |results| ==> ResultFits(NamedFiles(files)[k], results[k])
    ensures forall j :: 0 <= j < |files| ==> !Classify(files[j]).Aborts?
  {
    forall j | 0 <= j < |files| ensures !Classify(files[j]).Aborts? {
      if files[j].filename != "" {
        NamedFileListed(files, j);
        var k :| 0 <= k < |NamedFiles(files)| && NamedFiles(files)[k] == files[j];
        assert ResultFits(NamedFiles(files)[k], results[k]);
      }
    }
  }

  /** Every result is either a success or a failure. */
  lemma {:induction false} SucceededPlusFailed(results: seq<FileResult>)
    ensures CountSucceeded(results) + CountFailed(results) == |results|
  {
    if |results| > 0 {
      SucceededPlusFailed(results[..|results| - 1]);
    }
  }

  /** What a file's step promises the loop: a crash exactly for an aborting file,
      nothing for an unnamed one, otherwise a result that fits the file and records
      that are safe to add. */
  predicate StepFits(file: FileIn, callers: seq<nat>, stored: set<string>, step: FileStep) {
    && (step.Crashed? <==> Classify(file).Aborts?)
    && (step.Ignored? <==> file.filename == "")
    && (step.Reported? ==>
          && ResultFits(file, step.result)
          && (step.result.FileSucceeded? ==> step.result.recordsAdded == |step.created|)
          && (step.result.FileFailed? ==> step.created == [])
          && stored <= step.stored
          && CreatedSafely(step.created, callers, stored, step.stored))
  }

  /** The records of a ready file are safe to add, and account for every entry. */
  lemma ReadyStepSafe(es: seq<Entry>, callers: seq<nat>, stored: set<string>)
    requires |callers| > 0
    ensures var os := RoundRobin(es, callers, stored);
      && |CreatedFrom(es, os)| + CountSkipped(os) == |es|
      && CreatedSafely(CreatedFrom(es, os), callers, stored, stored + PhonesOf(es))
  {
    var os := RoundRobin(es, callers, stored);
    CreatedPlusSkipped(es, os);
    forall i | 0 <= i < |es| && os[i].Added?
      ensures os[i].callerId in callers && es[i].phone !in stored + PhonesUpTo(es, i)
    {
      assert os[i].callerId == callers[i % |callers|];
    }
    CreatedFromSafe(es, os, callers, stored);
  }

  /** Every file's step fits it. */
  lemma FileStepFits(file: FileIn, callers: seq<nat>, stored: set<string>)
    requires |callers| > 0
    ensures StepFits(file, callers, stored, FileStepOf(file, callers, stored))
  {
    match Classify(file)
    case Ready(es) => ReadyStepSafe(es, callers, stored);
    case _ =>
  }

  /** One turn of the `for file in files` loop: the step of the file, read against
      the phones stored so far. */
  method NextFile(file: FileIn, callers: seq<nat>, stored: set<string>) returns (step: FileStep)
    requires |callers| > 0
    ensures step == FileStepOf(file, callers, stored)
  {
    step := ProcessFile(file, callers, stored);
  }

  /** What the file loop has accumulated: the result entries, the records created,
      the duplicates skipped and the phones stored so far. */
  datatype Tally = Tally(results: seq<FileResult>, created: seq<NewRecord>, skipped: nat, stored: set<string>)

  /** A file's step added to a tally: None when it crashes the request. */
  function AddStep(t: Tally, step: FileStep): Option<Tally> {
    match step
    case Crashed => None
    case Ignored => Some(t)
    case Reported(result, created, stored) =>
      var skipped := if result.FileSucceeded? then result.skippedDuplicates else 0;
      Some(Tally(t.results + [result], t.created + created, t.skipped + skipped, stored))
  }

  /** The reference run of the file loop over the first `n` files: the files in
      order, each read against the phones the earlier ones stored (the session
      autoflushes before each lookup); None once a file crashes the request. */
  function RunUpTo(files: seq<FileIn>, n: nat, callers: seq<nat>, existing: set<string>): Option<Tally>
    requires |callers| > 0 && n <= |files|
  {
    if n == 0 then Some(Tally([], [], 0, existing))
    else
      match RunUpTo(files, n - 1, callers, existing)
      case None => None
      case Some(t) => AddStep(t, FileStepOf(files[n - 1], callers, t.stored))
  }

  /** The reference run over all the files. */
  function RunFiles(files: seq<FileIn>, callers: seq<nat>, existing: set<string>): Option<Tally>
    requires |callers| > 0
  {
    RunUpTo(files, |files|, callers, existing)
  }

  /** One turn of the reference run: the file after the first `f` is read against
      the phones they stored. */
  lemma RunUpToNext(files: seq<FileIn>, f: nat, callers: seq<nat>, existing: set<string>, t: Tally, step: FileStep)
    requires |callers| > 0 && f < |files|
    requires RunUpTo(files, f, callers, existing) == Some(t)
    requires step == FileStepOf(files[f], callers, t.stored)
    ensures RunUpTo(files, f + 1, callers, existing) == AddStep(t, step)
  {
  }

  /** Once a file has crashed the request, later files cannot revive it. */
  lemma {:induction false} RunStaysCrashed(files: seq<FileIn>, n: nat, m: nat, callers: seq<nat>, existing: set<string>)
    requires |callers| > 0 && n <= m <= |files|
    requires RunUpTo(files, n, callers, existing).None?
    ensures RunUpTo(files, m, callers, existing).None?
  {
    if n < m {
      RunStaysCrashed(files, n, m - 1, callers, existing);
    }
  }

  /** The run over the first `n` files crashes exactly when one of them aborts. */
  lemma {:induction false} RunCrash(files: seq<FileIn>, n: nat, callers: seq<nat>, existing: set<string>)
    requires |callers| > 0 && n <= |files|
    ensures RunUpTo(files, n, callers, existing).None? <==> exists k :: 0 <= k < n && Classify(files[k]).Aborts?
  {
    if n > 0 {
      RunCrash(files, n - 1, callers, existing);
      if RunUpTo(files, n - 1, callers, existing).Some? {
        FileStepFits(files[n - 1], callers, RunUpTo(files, n - 1, callers, existing).value.stored);
      }
    }
  }

  /** The tally after the first `f` files: one fitting result per named file, the
      totals of the results, and records that are safe to add. */
  predicate TallyAfter(files: seq<FileIn>, f: nat, callers: seq<nat>, existing: set<string>, t: Tally)
    requires f <= |files|
  {
    && |t.results| == |NamedFiles(files[..f])|
    && (forall k :: 0 <= k < |t.results| ==> ResultFits(NamedFiles(files[..f])[k], t.results[k]))
    && |t.created| == SumAdded(t.results)
    && t.skipped == SumSkipped(t.results)
    && existing <= t.stored
    && CreatedSafely(t.created, callers, existing, t.stored)
  }

  /** A step that fits file `f` and does not crash moves the tally on by one file. */
  lemma TallyNext(files: seq<FileIn>, f: nat, callers: seq<nat>, existing: set<string>, t: Tally, step: FileStep)
    requires f < |files| && TallyAfter(files, f, callers, existing, t)
    requires StepFits(files[f], callers, t.stored, step) && !step.Crashed?
    ensures AddStep(t, step).Some? && TallyAfter(files, f + 1, callers, existing, AddStep(t, step).value)
  {
    if step.Ignored? {
      FitsSkip(files, f, t.results);
    } else {
      TallyReported(files, f, callers, existing, t, step);
    }
  }

  /** A reported step appends one fitting result, its records and its totals. */
  lemma TallyReported(files: seq<FileIn>, f: nat, callers: seq<nat>, existing: set<string>, t: Tally, step: FileStep)
    requires f < |files| && TallyAfter(files, f, callers, existing, t)
    requires StepFits(files[f], callers, t.stored, step) && step.Reported?
    ensures AddStep(t, step).Some? && TallyAfter(files, f + 1, callers, existing, AddStep(t, step).value)
  {
    CreatedSafelyAppend(t.created, step.created, callers, existing, t.stored, step.stored);
    FitsExtend(files, f, t.results, step.result);
    var results := t.results + [step.result];
    assert results[..|results| - 1] == t.results;
  }

  /** A run that does not crash ends with one fitting result per named file, the
      totals of those results and records that are safe to add. */
  lemma {:induction false} RunTally(files: seq<FileIn>, n: nat, callers: seq<nat>, existing: set<string>)
    requires |callers| > 0 && n <= |files| && RunUpTo(files, n, callers, existing).Some?
    ensures TallyAfter(files, n, callers, existing, RunUpTo(files, n, callers, existing).value)
  {
    if n == 0 {
      assert files[..0] == [];
    } else {
      RunTally(files, n - 1, callers, existing);
      var t := RunUpTo(files, n - 1, callers, existing).value;
      var step := FileStepOf(files[n - 1], callers, t.stored);
      FileStepFits(files[n - 1], callers, t.stored);
      TallyNext(files, n - 1, callers, existing, t, step);
    }
  }

  /** The `for file in files` loop: either some file crashes the request, or the
      results of the named files in order, the records created and the duplicates
      skipped, each file read against the phones stored before it. */
  method ProcessFiles(files: seq<FileIn>, callers: seq<nat>, existing: set<string>)
    returns (crashed: bool, results: seq<FileResult>, created: seq<NewRecord>, totalSkipped: nat,
             stored: set<string>)
    requires |callers| > 0
    ensures crashed <==> RunFiles(files, callers, existing).None?
    ensures !crashed ==> RunFiles(files, callers, existing) == Some(Tally(results, created, totalSkipped, stored))
  {
    var t := Tally([], [], 0, existing);
    var f := 0;
    while f < |files|
      invariant 0 <= f <= |files|
      invariant RunUpTo(files, f, callers, existing) == Some(t)
    {
      var step := NextFile(files[f], callers, t.stored);
      RunUpToNext(files, f, callers, existing, t, step);
      if step.Crashed? {
        RunStaysCrashed(files, f + 1, |files|, callers, existing);
        return true, [], [], 0, existing;
      }
      t := AddStep(t, step).value;
      f := f + 1;
    }
    return false, t.results, t.created, t.skipped, t.stored;
  }

  /** The reference run crashes exactly when some file aborts; otherwise it ends
      with one fitting result per named file, in order, the totals of those results,
      and records that are new, distinct and assigned to callers. */
  lemma RunFilesFacts(files: seq<FileIn>, callers: seq<nat>, existing: set<string>)
    requires |callers| > 0
    ensures RunFiles(files, callers, existing).None? <==> exists k :: 0 <= k < |files| && Classify(files[k]).Aborts?
    ensures RunFiles(files, callers, existing).Some? ==>
      var t := RunFiles(files, callers, existing).value;
      && |t.results| == |NamedFiles(files)|
      && (forall k :: 0 <= k < |t.results| ==> ResultFits(NamedFiles(files)[k], t.results[k]))
      && |t.created| == SumAdded(t.results)
      && t.skipped == SumSkipped(t.results)
      && existing <= t.stored
      && CreatedSafely(t.created, callers, existing, t.stored)
  {
    RunCrash(files, |files|, callers, existing);
    if RunFiles(files, callers, existing).Some? {
      RunTally(files, |files|, callers, existing);
      assert files[..|files|] == files;
    }
  }

  /** `upload_csv`: `role` is the requesting user's role, `callers` the ids of all
      users whose role is 'caller', `existing` the phones already stored. */
  method UploadFiles(role: string, files: seq<FileIn>, callers: seq<nat>, existing: set<string>)
    returns (resp: UploadResponse)
    ensures role != "admin" ==> resp == Refused(403)
    ensures role == "admin" && |files| == 0 ==> resp == Refused(400)
    ensures role == "admin" && |files| > 0 && |callers| == 0 ==> resp == Refused(400)
    ensures role == "admin" && |files| > 0 && |callers| > 0 ==>
      && (resp.ServerError? || resp.Uploaded?)
      && (resp.ServerError? <==> exists k :: 0 <= k < |files| && Classify(files[k]).Aborts?)
      && (resp.ServerError? <==> RunFiles(files, callers, existing).None?)
    ensures resp.Uploaded? ==>
      && |callers| > 0
      && RunFiles(files, callers, existing).Some?
      && resp.results == RunFiles(files, callers, existing).value.results
      && resp.created == RunFiles(files, callers, existing).value.created
      && resp.totalSkipped == RunFiles(files, callers, existing).value.skipped
    ensures resp.Uploaded? ==>
      && |resp.results| == |NamedFiles(files)|
      && (forall k :: 0 <= k < |resp.results| ==> ResultFits(NamedFiles(files)[k], resp.results[k]))
      && resp.filesProcessed == CountSucceeded(resp.results)
      && resp.filesProcessed + resp.filesFailed == |resp.results|
      && resp.totalAdded == |resp.created| == SumAdded(resp.results)
      && resp.totalSkipped == SumSkipped(resp.results)
    ensures resp.Uploaded? ==> forall k :: 0 <= k < |resp.created| ==>
      resp.created[k].phone !in existing && resp.created[k].callerId in callers
    ensures resp.Uploaded? ==> forall k, l :: 0 <= k < l < |resp.created| ==>
      resp.created[k].phone != resp.created[l].phone
  {
    if role != "admin" {
      return Refused(403);
    }
    if |files| == 0 || |callers| == 0 {
      return Refused(400);
    }
    var crashed, results, created, totalSkipped, _ := ProcessFiles(files, callers, existing);
    RunFilesFacts(files, callers, existing);
    if crashed {
      return ServerError;
    }
    SucceededPlusFailed(results);
    return Uploaded(|created|, totalSkipped, CountSucceeded(results), CountFailed(results), results, created);
  }
}
