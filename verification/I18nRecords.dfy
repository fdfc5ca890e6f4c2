/**
 Language records: writing every text as numbered sections (scripts/generate_i18n_json_from_header.py)
 and reading the records back, whatever their order (scripts/generate_language_models.py).
 */
module I18nRecords {
  import opened I18nSplit

  const SECTION_BYTES: nat := 31

  datatype EntryKey = EntryKey(scope: int, key: int)

  /** An entry with its texts by language. */
  datatype Entry = Entry(id: EntryKey, values: map<string, string>)

  /** One row of a language file. */
  datatype Record = Record(id: EntryKey, section: int, text: string)

  datatype Chunk = Chunk(section: int, text: string)

  /** The text in a language, empty when it is missing. */
  function TextIn(e: Entry, lang: string): string {
    if lang in e.values then e.values[lang] else ""
  }

  // ---------------------------------------------------------------- stable sorting

  function Insert<T>(s: seq<T>, x: T, before: (T, T) -> bool): seq<T> {
    if s == [] || !before(x, s[|s| - 1]) then s + [x]
    else Insert(s[..|s| - 1], x, before) + [s[|s| - 1]]
  }

  /** Python's `sorted` for the strict order `before`. */
  function Sort<T>(s: seq<T>, before: (T, T) -> bool): seq<T> {
    if s == [] then [] else Insert(Sort(s[..|s| - 1], before), s[|s| - 1], before)
  }

  lemma {:induction false} InsertIsPermutation<T>(s: seq<T>, x: T, before: (T, T) -> bool)
    ensures multiset(Insert(s, x, before)) == multiset(s) + multiset{x}
  {
    if s != [] && before(x, s[|s| - 1]) {
      InsertIsPermutation(s[..|s| - 1], x, before);
      assert s == s[..|s| - 1] + [s[|s| - 1]];
    }
  }

  lemma {:induction false} SortIsPermutation<T>(s: seq<T>, before: (T, T) -> bool)
    ensures multiset(Sort(s, before)) == multiset(s)
  {
    if s != [] {
      SortIsPermutation(s[..|s| - 1], before);
      InsertIsPermutation(Sort(s[..|s| - 1], before), s[|s| - 1], before);
      assert s == s[..|s| - 1] + [s[|s| - 1]];
    }
  }

  function Earlier(a: Chunk, b: Chunk): bool {
    a.section < b.section
  }

  function Sooner(a: Entry, b: Entry): bool {
    a.id.scope < b.id.scope || (a.id.scope == b.id.scope && a.id.key < b.id.key)
  }

  predicate Ordered(s: seq<Chunk>) {
    forall i, j :: 0 <= i < j < |s| ==> s[i].section <= s[j].section
  }

  lemma {:induction false} InsertKeepsOrder(s: seq<Chunk>, x: Chunk)
    requires Ordered(s)
    ensures Ordered(Insert(s, x, Earlier))
    ensures forall c :: c in Insert(s, x, Earlier) ==> c in s || c == x
  {
    if s != [] && Earlier(x, s[|s| - 1]) {
      var front := s[..|s| - 1];
      InsertKeepsOrder(front, x);
      var t := Insert(front, x, Earlier);
      forall i | 0 <= i < |t| ensures t[i].section <= s[|s| - 1].section {
        assert t[i] in t;
      }
    }
  }

  lemma {:induction false} SortOrders(s: seq<Chunk>)
    ensures Ordered(Sort(s, Earlier))
  {
    if s != [] {
      SortOrders(s[..|s| - 1]);
      InsertKeepsOrder(Sort(s[..|s| - 1], Earlier), s[|s| - 1]);
    }
  }

  /** The sections of a text, numbered from 0. */
  function Numbered(parts: seq<string>): (s: seq<Chunk>)
    ensures |s| == |parts|
  {
    seq(|parts|, i requires 0 <= i < |parts| => Chunk(i, parts[i]))
  }

  /** The last of an ordered list with the numbered sections as its elements is the last section. */
  lemma LastIsLast(s: seq<Chunk>, parts: seq<string>)
    requires parts != [] && |s| == |parts| && Ordered(s)
    requires multiset(s) == multiset(Numbered(parts))
    ensures s[|s| - 1] == Numbered(parts)[|parts| - 1]
  {
    var target := Numbered(parts);
    var n := |parts| - 1;
    assert target[n] in multiset(s);
    var k :| 0 <= k < |s| && s[k] == target[n];
    assert s[n] in multiset(target);
    var j :| 0 <= j < |target| && target[j] == s[n];
  }

  lemma WithoutLast<T>(s: seq<T>)
    requires s != []
    ensures multiset(s[..|s| - 1]) == multiset(s) - multiset{s[|s| - 1]}
  {
    assert s == s[..|s| - 1] + [s[|s| - 1]];
  }

  lemma SameLength<T>(s: seq<T>, t: seq<T>)
    requires multiset(s) == multiset(t)
    ensures |s| == |t|
  {
    assert |multiset(s)| == |s| && |multiset(t)| == |t|;
  }

  lemma WithoutLasts<T>(s: seq<T>, t: seq<T>)
    requires s != [] && t != [] && s[|s| - 1] == t[|t| - 1] && multiset(s) == multiset(t)
    ensures multiset(s[..|s| - 1]) == multiset(t[..|t| - 1])
  {
    WithoutLast(s);
    WithoutLast(t);
  }

  lemma Prefixes(s: seq<Chunk>, parts: seq<string>)
    requires Ordered(s) && |s| == |parts| > 0
    ensures Ordered(s[..|s| - 1])
    ensures Numbered(parts)[..|parts| - 1] == Numbered(parts[..|parts| - 1])
  {
  }

  /** Only one ordered list has the numbered sections as its elements. */
  lemma {:induction false} OrderedIsNumbered(s: seq<Chunk>, parts: seq<string>)
    requires Ordered(s) && multiset(s) == multiset(Numbered(parts))
    ensures s == Numbered(parts)
    decreases |parts|
  {
    hide Ordered, Numbered;
    var target := Numbered(parts);
    SameLength(s, target);
    if parts != [] {
      var n := |parts| - 1;
      LastIsLast(s, parts);
      WithoutLasts(s, target);
      Prefixes(s, parts);
      OrderedIsNumbered(s[..n], parts[..n]);
      assert s == s[..n] + [s[n]];
    }
  }

  lemma SortRestores(s: seq<Chunk>, parts: seq<string>)
    requires multiset(s) == multiset(Numbered(parts))
    ensures Sort(s, Earlier) == Numbered(parts)
  {
    SortIsPermutation(s, Earlier);
    SortOrders(s);
    OrderedIsNumbered(Sort(s, Earlier), parts);
  }

  // ---------------------------------------------------------------- writing

  function Labelled(id: EntryKey, chunks: seq<Chunk>): (s: seq<Record>)
    ensures |s| == |chunks|
  {
    seq(|chunks|, i requires 0 <= i < |chunks| => Record(id, chunks[i].section, chunks[i].text))
  }

  function RecordsOf(e: Entry, lang: string): seq<Record> {
    Labelled(e.id, Numbered(Split(TextIn(e, lang), SECTION_BYTES)))
  }

  function Written(entries: seq<Entry>, lang: string): seq<Record> {
    if entries == [] then []
    else Written(entries[..|entries| - 1], lang) + RecordsOf(entries[|entries| - 1], lang)
  }

  /** _build_lang_records */
  method BuildRecords(entries: seq<Entry>, lang: string) returns (out: seq<Record>)
    ensures out == Written(Sort(entries, Sooner), lang)
  {
    hide Sort, Split;
    out := [];
    var sorted := Sort(entries, Sooner);
    for i := 0 to |sorted|
      invariant out == Written(sorted[..i], lang)
    {
      var e := sorted[i];
      var parts := SplitCounting(TextIn(e, lang), SECTION_BYTES);
      ghost var before := out;
      for section := 0 to |parts|
        invariant out == before + RecordsOf(e, lang)[..section]
      {
        out := out + [Record(e.id, section, parts[section])];
      }
      assert RecordsOf(e, lang)[..|parts|] == RecordsOf(e, lang);
      assert sorted[..i + 1][..i] == sorted[..i];
    }
    assert sorted[..|sorted|] == sorted;
  }

  // ---------------------------------------------------------------- reading

  /** The sections of one entry in the order of the rows. */
  function Group(records: seq<Record>, id: EntryKey): seq<Chunk> {
    if records == [] then []
    else
      var r := records[|records| - 1];
      Group(records[..|records| - 1], id) + if r.id == id then [Chunk(r.section, r.text)] else []
  }

  function Ids(records: seq<Record>): set<EntryKey> {
    set r | r in records && r.id.scope > 0 && r.id.key > 0 :: r.id
  }

  function Texts(chunks: seq<Chunk>): (s: seq<string>)
    ensures |s| == |chunks|
  {
    seq(|chunks|, i requires 0 <= i < |chunks| => chunks[i].text)
  }

  /** The sections put in order and joined. */
  function Assembled(chunks: seq<Chunk>): string {
    Join(Texts(Sort(chunks, Earlier)))
  }

  /** What is read for each key. */
  function Loaded(records: seq<Record>): map<EntryKey, string> {
    map id | id in Ids(records) :: Assembled(Group(records, id))
  }

  lemma NoIds()
    ensures Ids([]) == {}
  {
  }

  lemma {:induction false} NoGroup(records: seq<Record>, id: EntryKey)
    requires forall r :: r in records ==> r.id != id
    ensures Group(records, id) == []
  {
    if records != [] {
      NoGroup(records[..|records| - 1], id);
    }
  }

  lemma IdsSnoc(records: seq<Record>, r: Record)
    ensures forall id :: id in Ids(records) ==> id.scope > 0 && id.key > 0
    ensures Ids(records + [r]) == Ids(records) + if r.id.scope > 0 && r.id.key > 0 then {r.id} else {}
    ensures forall id ::
      Group(records + [r], id) == Group(records, id) + if r.id == id then [Chunk(r.section, r.text)] else []
    ensures r.id !in Ids(records) && r.id.scope > 0 && r.id.key > 0 ==> Group(records, r.id) == []
  {
    assert (records + [r])[..|records|] == records;
    if r.id !in Ids(records) && r.id.scope > 0 && r.id.key > 0 {
      NoGroup(records, r.id);
    }
  }

  /** _load_language_records */
  method LoadRecords(records: seq<Record>) returns (out: map<EntryKey, string>)
    ensures out == Loaded(records)
  {
    hide Group, Ids, Assembled;
    var grouped: map<EntryKey, seq<Chunk>> := map[];
    NoIds();
    for i := 0 to |records|
      invariant grouped.Keys == Ids(records[..i])
      invariant forall id :: id in grouped ==> grouped[id] == Group(records[..i], id)
    {
      var row := records[i];
      IdsSnoc(records[..i], row);
      assert records[..i] + [row] == records[..i + 1];
      if row.id.scope <= 0 || row.id.key <= 0 {
        continue;
      }
      var chunks := if row.id in grouped then grouped[row.id] else [];
      grouped := grouped[row.id := chunks + [Chunk(row.section, row.text)]];
    }
    assert records[..|records|] == records;
    out := map[];
    var left := grouped.Keys;
    while left != {}
      invariant left <= grouped.Keys && out.Keys == grouped.Keys - left
      invariant forall id :: id in out ==> out[id] == Assembled(grouped[id])
    {
      var id :| id in left;
      out := out[id := Assembled(grouped[id])];
      left := left - {id};
    }
  }

  ghost predicate Distinct(entries: seq<Entry>) {
    forall i, j :: 0 <= i < j < |entries| ==> entries[i].id != entries[j].id
  }

  // ---------------------------------------------------------------- the rows

  /** The rows of an entry are its sections, numbered from 0. */
  lemma RowsOfEntry(e: Entry, lang: string, i: nat)
    requires i < |RecordsOf(e, lang)|
    ensures RecordsOf(e, lang)[i] == Record(e.id, i, Split(TextIn(e, lang), 31)[i])
  {
  }

  lemma WidthsFit(text: string)
    ensures forall c :: c in text ==> |Encode(c)| <= SECTION_BYTES
  {
  }

  lemma {:induction false} WrittenRows(entries: seq<Entry>, lang: string)
    ensures forall r :: r in Written(entries, lang) ==>
      |Utf8(r.text)| <= 31 && exists e :: e in entries && r.id == e.id
    decreases |entries|
  {
    hide Split, Utf8;
    if entries != [] {
      var front, e := entries[..|entries| - 1], entries[|entries| - 1];
      WrittenRows(front, lang);
      WidthsFit(TextIn(e, lang));
      SectionsFit(TextIn(e, lang), SECTION_BYTES);
      assert entries == front + [e];
      assert Written(entries, lang) == Written(front, lang) + RecordsOf(e, lang);
    }
  }

  /** Rows in order of scope, then key, then section. */
  predicate RowBefore(a: Record, b: Record) {
    || a.id.scope < b.id.scope
    || (a.id.scope == b.id.scope && a.id.key < b.id.key)
    || (a.id == b.id && a.section < b.section)
  }

  ghost predicate RowsInOrder(rows: seq<Record>) {
    forall i, j :: 0 <= i < j < |rows| ==> RowBefore(rows[i], rows[j])
  }

  ghost predicate EntriesInOrder(entries: seq<Entry>) {
    forall i, j :: 0 <= i < j < |entries| ==> Sooner(entries[i], entries[j])
  }

  lemma {:induction false} InsertSooner(s: seq<Entry>, x: Entry)
    requires EntriesInOrder(s) && forall e :: e in s ==> e.id != x.id
    ensures EntriesInOrder(Insert(s, x, Sooner))
    ensures forall e :: e in Insert(s, x, Sooner) <==> e in s || e == x
  {
    if s != [] {
      var front, last := s[..|s| - 1], s[|s| - 1];
      assert s == front + [last];
      if Sooner(x, last) {
        InsertSooner(front, x);
        var t := Insert(front, x, Sooner);
        forall i | 0 <= i < |t| ensures Sooner(t[i], last) {
          assert t[i] in t;
        }
      } else {
        assert Sooner(last, x);
      }
    }
  }

  lemma {:induction false} SortSooner(s: seq<Entry>)
    requires Distinct(s)
    ensures EntriesInOrder(Sort(s, Sooner)) && forall e :: e in Sort(s, Sooner) <==> e in s
  {
    if s != [] {
      var front, e := s[..|s| - 1], s[|s| - 1];
      SortSooner(front);
      InsertSooner(Sort(front, Sooner), e);
      assert s == front + [e];
    }
  }

  lemma AppendInOrder(before: seq<Record>, own: seq<Record>, e: Entry, lang: string, front: seq<Entry>)
    requires RowsInOrder(before) && own == RecordsOf(e, lang)
    requires forall r :: r in before ==> exists f :: f in front && r.id == f.id
    requires forall f :: f in front ==> Sooner(f, e)
    ensures RowsInOrder(before + own)
  {
    hide Split;
    var rows := before + own;
    forall i, j | 0 <= i < j < |rows| ensures RowBefore(rows[i], rows[j]) {
      if i < |before| <= j {
        assert before[i] in before;
      }
    }
  }

  lemma {:induction false} WrittenInOrder(entries: seq<Entry>, lang: string)
    requires EntriesInOrder(entries)
    ensures RowsInOrder(Written(entries, lang))
    decreases |entries|
  {
    if entries != [] {
      var front, e := entries[..|entries| - 1], entries[|entries| - 1];
      WrittenInOrder(front, lang);
      WrittenRows(front, lang);
      var before, own := Written(front, lang), RecordsOf(e, lang);
      AppendInOrder(before, own, e, lang, front);
    }
  }

  /** The rows of a language file come in order of scope, key and section, none has a text of more than 31
      bytes, and none belongs to an entry that is not there. */
  lemma RowsAreOrderly(entries: seq<Entry>, lang: string)
    requires Distinct(entries)
    ensures var rows := Written(Sort(entries, Sooner), lang);
      && RowsInOrder(rows)
      && forall r :: r in rows ==> |Utf8(r.text)| <= 31 && exists e :: e in entries && r.id == e.id
  {
    hide Utf8, Written, RowsInOrder, EntriesInOrder, Sort;
    SortSooner(entries);
    WrittenInOrder(Sort(entries, Sooner), lang);
    WrittenRows(Sort(entries, Sooner), lang);
  }

  /** An entry takes no more rows than any way of cutting its text into sections of at most 31 bytes. */
  lemma FewestRows(e: Entry, lang: string, pieces: seq<string>)
    requires Cut(pieces, TextIn(e, lang), 31) && pieces != []
    ensures 1 <= |RecordsOf(e, lang)| <= |pieces|
  {
    FewestSections(TextIn(e, lang), 31, pieces);
  }

  /** The chunks of one section, in the order they have. */
  function OfSection(s: seq<Chunk>, section: int): seq<Chunk> {
    if s == [] then []
    else OfSection(s[..|s| - 1], section) + if s[|s| - 1].section == section then [s[|s| - 1]] else []
  }

  lemma {:induction false} InsertIsStable(s: seq<Chunk>, x: Chunk, section: int)
    ensures OfSection(Insert(s, x, Earlier), section) ==
      OfSection(s, section) + if x.section == section then [x] else []
  {
    if s != [] && Earlier(x, s[|s| - 1]) {
      var front, last := s[..|s| - 1], s[|s| - 1];
      InsertIsStable(front, x, section);
      assert Insert(s, x, Earlier)[..|Insert(s, x, Earlier)| - 1] == Insert(front, x, Earlier);
      assert last.section == section ==> x.section != section;
    } else {
      assert (s + [x])[..|s|] == s;
    }
  }

  /** Rows with the same section keep their order. */
  lemma {:induction false} SortIsStable(s: seq<Chunk>, section: int)
    ensures OfSection(Sort(s, Earlier), section) == OfSection(s, section)
  {
    if s != [] {
      SortIsStable(s[..|s| - 1], section);
      InsertIsStable(Sort(s[..|s| - 1], Earlier), s[|s| - 1], section);
    }
  }

  // ---------------------------------------------------------------- round trip

  lemma {:induction false} GroupConcat(a: seq<Record>, b: seq<Record>, id: EntryKey)
    ensures Group(a + b, id) == Group(a, id) + Group(b, id)
  {
    if b == [] {
      assert a + b == a;
    } else {
      assert (a + b)[..|a + b| - 1] == a + b[..|b| - 1];
      GroupConcat(a, b[..|b| - 1], id);
    }
  }

  lemma {:induction false} GroupLabelled(id: EntryKey, chunks: seq<Chunk>, wanted: EntryKey)
    ensures Group(Labelled(id, chunks), wanted) == if id == wanted then chunks else []
  {
    if chunks != [] {
      var n := |chunks| - 1;
      GroupLabelled(id, chunks[..n], wanted);
      assert Labelled(id, chunks)[..n] == Labelled(id, chunks[..n]);
      assert chunks == chunks[..n] + [chunks[n]];
    }
  }

  lemma GroupLast(entries: seq<Entry>, lang: string, id: EntryKey)
    requires entries != []
    ensures var e := entries[|entries| - 1];
      Group(Written(entries, lang), id) ==
        Group(Written(entries[..|entries| - 1], lang), id)
          + if e.id == id then Numbered(Split(TextIn(e, lang), SECTION_BYTES)) else []
  {
    hide Group, Numbered, Split;
    var front, e := entries[..|entries| - 1], entries[|entries| - 1];
    GroupConcat(Written(front, lang), RecordsOf(e, lang), id);
    GroupLabelled(e.id, Numbered(Split(TextIn(e, lang), SECTION_BYTES)), id);
  }

  lemma {:induction false} GroupAbsent(entries: seq<Entry>, lang: string, id: EntryKey)
    requires forall e :: e in entries ==> e.id != id
    ensures Group(Written(entries, lang), id) == []
  {
    hide Numbered, Split;
    if entries != [] {
      GroupAbsent(entries[..|entries| - 1], lang, id);
      GroupLast(entries, lang, id);
    }
  }

  lemma {:induction false} GroupWritten(entries: seq<Entry>, lang: string, j: nat)
    requires Distinct(entries) && j < |entries|
    ensures Group(Written(entries, lang), entries[j].id) == Numbered(Split(TextIn(entries[j], lang), SECTION_BYTES))
    decreases |entries|
  {
    hide Group, Written, Numbered, Split;
    var front := entries[..|entries| - 1];
    GroupLast(entries, lang, entries[j].id);
    if j < |front| {
      GroupWritten(front, lang, j);
    } else {
      GroupAbsent(front, lang, entries[j].id);
    }
  }

  /** Permuting the rows permutes every group. */
  lemma {:induction false} GroupCounts(records: seq<Record>, id: EntryKey, c: Chunk)
    ensures multiset(Group(records, id))[c] == multiset(records)[Record(id, c.section, c.text)]
  {
    if records != [] {
      var front, r := records[..|records| - 1], records[|records| - 1];
      GroupCounts(front, id, c);
      assert records == front + [r];
    }
  }

  lemma GroupPermutes(a: seq<Record>, b: seq<Record>, id: EntryKey)
    requires multiset(a) == multiset(b)
    ensures multiset(Group(a, id)) == multiset(Group(b, id))
    ensures Ids(a) == Ids(b)
  {
    forall c ensures multiset(Group(a, id))[c] == multiset(Group(b, id))[c] {
      GroupCounts(a, id, c);
      GroupCounts(b, id, c);
    }
    forall r ensures r in a <==> r in b {
      assert r in multiset(a) <==> r in multiset(b);
    }
  }

  lemma TextsNumbered(parts: seq<string>)
    ensures Texts(Numbered(parts)) == parts
  {
  }

  lemma IdsConcat(a: seq<Record>, b: seq<Record>)
    ensures Ids(a + b) == Ids(a) + Ids(b)
  {
  }

  lemma IdsOf(e: Entry, lang: string)
    requires e.id.scope > 0 && e.id.key > 0
    ensures Ids(RecordsOf(e, lang)) == {e.id}
  {
    hide Split;
    assert RecordsOf(e, lang)[0].id == e.id;
  }

  lemma {:induction false} IdsWritten(entries: seq<Entry>, lang: string)
    requires forall e :: e in entries ==> e.id.scope > 0 && e.id.key > 0
    ensures Ids(Written(entries, lang)) == set e | e in entries :: e.id
  {
    hide Ids, RecordsOf;
    if entries == [] {
      NoIds();
    } else {
      var front, e := entries[..|entries| - 1], entries[|entries| - 1];
      IdsWritten(front, lang);
      IdsConcat(Written(front, lang), RecordsOf(e, lang));
      IdsOf(e, lang);
      assert entries == front + [e];
    }
  }

  lemma {:induction false} InsertKeepsDistinct(s: seq<Entry>, x: Entry)
    requires Distinct(s) && forall e :: e in s ==> e.id != x.id
    ensures Distinct(Insert(s, x, Sooner))
    ensures forall e :: e in Insert(s, x, Sooner) <==> e in s || e == x
  {
    if s != [] && Sooner(x, s[|s| - 1]) {
      var front := s[..|s| - 1];
      InsertKeepsDistinct(front, x);
      assert s == front + [s[|s| - 1]];
      var t := Insert(front, x, Sooner);
      forall i | 0 <= i < |t| ensures t[i].id != s[|s| - 1].id {
        assert t[i] in t;
      }
    }
  }

  lemma {:induction false} SortKeepsDistinct(s: seq<Entry>)
    requires Distinct(s)
    ensures Distinct(Sort(s, Sooner)) && forall e :: e in Sort(s, Sooner) <==> e in s
  {
    if s != [] {
      var front, e := s[..|s| - 1], s[|s| - 1];
      SortKeepsDistinct(front);
      InsertKeepsDistinct(Sort(front, Sooner), e);
      assert s == front + [e];
    }
  }

  lemma LoadedText(entries: seq<Entry>, lang: string, rows: seq<Record>, e: Entry)
    requires Distinct(entries) && e in entries
    requires multiset(rows) == multiset(Written(entries, lang))
    ensures Assembled(Group(rows, e.id)) == TextIn(e, lang)
  {
    hide Group, Written, Numbered, Split, Sort, Join;
    var j :| 0 <= j < |entries| && entries[j] == e;
    var parts := Split(TextIn(e, lang), SECTION_BYTES);
    GroupPermutes(rows, Written(entries, lang), e.id);
    GroupWritten(entries, lang, j);
    SortRestores(Group(rows, e.id), parts);
    TextsNumbered(parts);
    Rejoins(TextIn(e, lang), SECTION_BYTES);
  }

  /** Entries with distinct positive identifiers, written for a language and read back after any
      reordering of the rows, give exactly their texts: nothing lost, added or mixed up. */
  lemma WriteThenLoad(entries: seq<Entry>, lang: string, rows: seq<Record>)
    requires Distinct(entries) && forall e :: e in entries ==> e.id.scope > 0 && e.id.key > 0
    requires multiset(rows) == multiset(Written(Sort(entries, Sooner), lang))
    ensures Loaded(rows).Keys == set e | e in entries :: e.id
    ensures forall e :: e in entries ==>
      e.id in Loaded(rows) && Loaded(rows)[e.id] == if lang in e.values then e.values[lang] else ""
  {
    hide Sort, Written, Group, Assembled;
    var sorted := Sort(entries, Sooner);
    SortKeepsDistinct(entries);
    IdsWritten(sorted, lang);
    GroupPermutes(rows, Written(sorted, lang), EntryKey(0, 0));
    forall e | e in entries ensures e.id in Loaded(rows) && Loaded(rows)[e.id] == TextIn(e, lang) {
      LoadedText(sorted, lang, rows, e);
    }
  }
}
