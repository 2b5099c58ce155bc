/** The main program's session on the repository's sample tables, with a scheme that meets every
    assumption: a concrete run of everything the theorems speak of. */
module Sample {
  import opened Wrappers
  import opened Numerals
  import opened Keys
  import opened Hex
  import opened Scheme
  import opened Cells
  import opened Tables
  import opened Stores
  import opened DataMapper
  import opened Catalogs
  import opened Sums
  import opened Executor
  import opened Planner
  import opened Csv
  import opened Service
  import opened Serving
  import opened CrossProducts
  import opened Queries
  import opened Reuploads
  import opened Leftovers
  import opened Deletions
  import opened Runs
  import opened Joins
  import opened Answering
  import opened SessionLaws
  import opened Sessions
  import opened TableSessions

  /** The tags under which the three indexes of a table are stored. */
  function KeyTags(s: Scheme, t: Table): set<string>
    requires WellFormed(t.table, t.columnsType)
  {
    (set r: nat | r < |t.table| + |t.table[0]| :: Tag(s, Indexed(t.name, r)))
    + (set r: nat, c: nat | r < |t.table| && c < |t.table[0]| :: Tag(s, ValueKey(t.name, c, t.table[r][c])))
  }

  /** For every two tables, a second version of the students and every query there is a scheme in whose
      scope two sessions lie. */
  ghost function SessionScheme(modulus: nat, t1: Table, t2: Table, u2: Table, c: nat, v: string): (s: Scheme)
    requires 0 < modulus <= INT_MAX + 1
    requires WellFormed(t1.table, t1.columnsType) && WellFormed(t2.table, t2.columnsType)
    requires HasColumn(t1.table, 0) && HasColumn(t2.table, 2) && WellFormed(u2.table, u2.columnsType)
    ensures Assumptions(s) && TwoSessionsFit(s, t1, t2, c, v) && KeysInScope(s, u2)
    ensures s.modulus == modulus && s == Plain(modulus, s.tags, s.limit)
  {
    var s0 := Plain(modulus, {}, 0);
    var tags := KeyTags(s0, t1) + KeyTags(s0, t2) + KeyTags(s0, u2) + {Tag(s0, ValueKey(t1.name, c, v))};
    var limit := 2 * (Area(|t1.table|, |t1.table[0]|) + Area(|t2.table|, |t2.table[0]|)
                      + |JoinPairs(t1.table, 0, t2.table, 2)|);
    PlainIsValid(modulus, tags, limit);
    var s := Plain(modulus, tags, limit);
    KeysCovered(s0, s, t1);
    KeysCovered(s0, s, t2);
    KeysCovered(s0, s, u2);
    assert Tag(s, ValueKey(t1.name, c, v)) == Tag(s0, ValueKey(t1.name, c, v)) by {
      SameTags(s0, s);
    }
    s
  }

  lemma SameTags(s0: Scheme, s: Scheme)
    requires 0 < s0.modulus && s0 == Plain(s0.modulus, s0.tags, s0.limit)
    requires 0 < s.modulus && s == Plain(s.modulus, s.tags, s.limit)
    ensures forall k :: Tag(s, k) == Tag(s0, k)
  {
    hide HexOf, Spread;
    assert forall k :: s.prf(k) == Spread(k) == s0.prf(k);
  }

  lemma KeysCovered(s0: Scheme, s: Scheme, t: Table)
    requires WellFormed(t.table, t.columnsType) && KeyTags(s0, t) <= s.tags
    requires 0 < s0.modulus && s0 == Plain(s0.modulus, s0.tags, s0.limit)
    requires 0 < s.modulus && s == Plain(s.modulus, s.tags, s.limit)
    ensures KeysInScope(s, t)
  {
    hide Tag, Indexed, ValueKey, Plain;
    SameTags(s0, s);
    forall r: nat | r < |t.table| || r < |t.table[0]| ensures Tag(s, Indexed(t.name, r)) in s.tags {
      assert Tag(s0, Indexed(t.name, r)) in KeyTags(s0, t);
    }
    forall r: nat, c: nat | r < |t.table| && c < |t.table[0]|
      ensures Tag(s, ValueKey(t.name, c, t.table[r][c])) in s.tags
    {
      assert Tag(s0, ValueKey(t.name, c, t.table[r][c])) in KeyTags(s0, t);
    }
  }

  // ----- the sample tables -----

  function CourseTable(): Table {
    Table(COURSES, [["16", "CS"], ["18", "Math"]], ["Course", "CourseName"], ["string", "string"], [])
  }

  function StudentTable(): Table {
    Table(STUDENTS,
          [["A05", "Alice", "16", "80"], ["A12", "Bob", "18", "98"], ["A03", "Eve", "18", "92"]],
          ["ID", "Name", "Course", "Score"], ["string", "string", "string", "int"], [])
  }

  lemma ScoreIsStored(s: Scheme, text: string, tens: nat, ones: nat)
    requires s.modulus > 99 && tens < 10 && ones < 10 && text == [DigitChar(tens, false), DigitChar(ones, false)]
    ensures Fault(s, "int", text) == None && NumberOf(s, text) == 10 * tens + ones
  {
    assert text[..1] == [DigitChar(tens, false)] && text[..1][..0] == [];
    assert Value(text[..1], 10) == tens;
    StoiOfDigits(text, 10);
  }

  lemma SampleTablesAreStorable(s: Scheme)
    requires s.modulus > 99
    ensures Storable(s, CourseTable().table, CourseTable().columnsType)
    ensures Storable(s, StudentTable().table, StudentTable().columnsType)
  {
    hide Stoi;
    ScoreIsStored(s, "80", 8, 0);
    ScoreIsStored(s, "98", 9, 8);
    ScoreIsStored(s, "92", 9, 2);
  }

  lemma MathRows()
    ensures RowsWith(CourseTable(), 1, "Math") == [1] && OldRows(CourseTable(), CourseTable(), 1, "Math") == []
  {
    assert Matches(CourseTable().table, 1, "Math", 1) == Matches(CourseTable().table, 1, "Math", 0) + [];
    assert Matches(CourseTable().table, 1, "Math", 2) == Matches(CourseTable().table, 1, "Math", 1) + [1];
  }

  lemma TakersOfMath(t2: Table)
    requires HasColumn(t2.table, 2) && 2 <= |t2.table| <= 3 && t2.table[0][2] == "16" && t2.table[1][2] == "18"
    requires |t2.table| == 3 ==> t2.table[2][2] == "18"
    ensures Partners(CourseTable(), 0, t2, 2, 1) == if |t2.table| == 3 then [1, 2] else [1]
  {
    var rows2 := t2.table;
    assert Matches(rows2, 2, "18", 1) == Matches(rows2, 2, "18", 0) + [];
    assert Matches(rows2, 2, "18", 2) == Matches(rows2, 2, "18", 1) + [1];
  }

  /** The plaintext answer for Math: the partners of row 1 of the courses. */
  lemma MathJoin(t2: Table)
    requires HasColumn(t2.table, 2)
    ensures PlainJoin(CourseTable().table, 1, "Math", 0, t2.table, 2) == Partners(CourseTable(), 0, t2, 2, 1)
  {
    hide Cross, Matches, PlainJoin;
    var rows1 := CourseTable().table;
    PlainJoinFollows(rows1, 1, "Math", 0, t2.table, 2);
    MathRows();
    assert rows1[1][0] == "18";
    assert [1][..0] == [];
    var found := Matches(t2.table, 2, "18", |t2.table|);
    assert JoinedRows(rows1, 0, t2.table, 2, [1]) == JoinedRows(rows1, 0, t2.table, 2, []) + found == found;
  }

  lemma SampleJoin()
    ensures PlainJoin(CourseTable().table, 1, "Math", 0, StudentTable().table, 2) == [1, 2]
  {
    hide PlainJoin, Partners;
    MathJoin(StudentTable());
    TakersOfMath(StudentTable());
  }

  lemma SampleEntries(p: nat)
    requires p < 4
    ensures Position(StudentTable().columnsType, 4) == 4 && ColumnAt(StudentTable().columnsType, 4, p) == p
  {
    var types := StudentTable().columnsType;
    PositionIsColumnIff(types, 4);
    EntryIsColumnIff(types, 4, p);
  }

  lemma NameIsShown(s: Scheme, name: string)
    requires SymmetricInverts(s) && '#' !in name && 0 < |name| < 16
    ensures Shown(s, "string", name) == name
  {
    hide Unsealed, Sealed;
    SymmetricRoundTrip(s, name);
  }

  lemma SampleAnswer(s: Scheme, out: Option<Result<seq<seq<string>>>>)
    requires SymmetricInverts(s)
    requires ShowsEntry(s, "string", out, StudentTable(), 1, [1, 2])
    ensures out == Some(Ok([["Bob"], ["Eve"]]))
  {
    hide Shown, Position, ColumnAt, SymmetricInverts;
    NameIsShown(s, "Bob");
    NameIsShown(s, "Eve");
    SampleEntries(1);
    var rows, rs := StudentTable().table, [1, 2];
    assert rows[rs[0]][1] == "Bob" && rows[rs[1]][1] == "Eve";
    var answer := out.value.value;
    assert answer[0] == [answer[0][0]] == ["Bob"] && answer[1] == [answer[1][0]] == ["Eve"];
    assert answer == [["Bob"], ["Eve"]];
  }

  /** What the sample sessions ask of the scheme. */
  ghost predicate SampleFits(s: Scheme) {
    Assumptions(s) && s.modulus > 99 && SessionsFit(s, CourseTable(), StudentTable(), Rescored(), 1, "Math")
  }

  /** The scope covers the sessions with these tables. */
  ghost predicate SessionsFit(s: Scheme, t1: Table, t2: Table, u2: Table, c: nat, v: string) {
    && Joinable(t1, t2) && Joinable(t1, u2)
    && TwoSessionsFit(s, t1, t2, c, v) && KeysInScope(s, u2)
  }

  predicate Joinable(t1: Table, t2: Table) {
    && WellFormed(t1.table, t1.columnsType) && WellFormed(t2.table, t2.columnsType)
    && HasColumn(t1.table, 0) && HasColumn(t2.table, 2)
  }

  lemma SampleTablesJoin()
    ensures Joinable(CourseTable(), StudentTable())
  {
  }

  /** The students with one more point for Alice. */
  function Rescored(): Table {
    StudentTable().(table :=
        [["A05", "Alice", "16", "81"], ["A12", "Bob", "18", "98"], ["A03", "Eve", "18", "92"]])
  }

  /** The requirements of the sample sessions, and with them those of the theorems they rest on, can be met. */
  lemma SampleSessionsArePossible() returns (s: Scheme)
    ensures SampleFits(s) && LongCiphers(s) && forall cipher :: s.misread(cipher) == ""
  {
    s := SessionScheme(1000, CourseTable(), StudentTable(), Rescored(), 1, "Math");
  }

  /** Ciphertexts of numbers do not fit the buffers of the text decryption. */
  ghost predicate LongCiphers(s: Scheme) {
    forall cipher :: s.isCipher(cipher) ==> |cipher| > BUFFER_SIZE
  }

  /** `SELECT student.. FROM student, courseinfo WHERE student.Course = courseinfo.Course AND
      courseinfo.CourseName = 'Math'` names the columns that the sample sessions speak of. */
  lemma SampleIsAsked(t2: Table, p: nat)
    requires t2.columns == StudentTable().columns && t2.columnsType == StudentTable().columnsType && p < 4
    ensures JoinAsked(CourseTable(), 1, "Math", t2, p)
  {
    assert CourseTable().columns[..1] == ["Course"] && CourseTable().columns[..0] == [];
    StudentColumnsAreNamed(t2, p);
    StudentColumnsAreNamed(t2, 2);
    assert '.' !in "Math" && "Math"[..3] == "Mat";
  }

  lemma StudentColumnsAreNamed(t: Table, p: nat)
    requires t.columns == StudentTable().columns && t.columnsType == StudentTable().columnsType && p < 4
    ensures Named(t, p)
  {
    var names := ["ID", "Name", "Course", "Score"];
    assert names[..0] == [] && names[..1] == ["ID"] && names[..2] == ["ID", "Name"];
    assert names[..3] == ["ID", "Name", "Course"];
  }

  /** Asking which students take the course named Math finds Bob and Eve. */
  method SampleSession(s: Scheme) returns (res: Option<Result<seq<seq<string>>>>)
    requires SampleFits(s)
    ensures res == Some(Ok([["Bob"], ["Eve"]]))
  {
    hide Assumptions, TwoSessionsFit, SessionFits, Shown, PlainJoin, Storable, Fault, SymmetricInverts, ShowsEntry;
    LabelsAreDistinctNow(s);
    SampleTablesAreStorable(s);
    SampleEntries(1);
    FirstSessionFits(s, CourseTable(), StudentTable(), 1, "Math");
    var fault;
    SampleIsAsked(StudentTable(), 1);
    fault, res := FirstSession(s, CourseTable(), StudentTable(), 1, "Math", 1);
    SampleJoin();
    SampleAnswer(s, res);
  }

  // ----- a deleted row -----

  /** The students without Eve. */
  function WithoutEve(): Table {
    StudentTable().(table := StudentTable().table[..2])
  }

  lemma SampleJoinWithoutEve()
    ensures PlainJoin(CourseTable().table, 1, "Math", 0, WithoutEve().table, 2) == [1]
  {
    hide PlainJoin, Partners;
    MathJoin(WithoutEve());
    TakersOfMath(WithoutEve());
  }

  lemma WithoutEveIsCutDown()
    ensures WellFormed(WithoutEve().table, WithoutEve().columnsType) && HasColumn(WithoutEve().table, 2)
    ensures CutDown(StudentTable(), WithoutEve())
  {
  }

  lemma WithoutEveIsStorable(s: Scheme)
    requires s.modulus > 99
    ensures Storable(s, WithoutEve().table, WithoutEve().columnsType)
  {
    hide Fault;
    SampleTablesAreStorable(s);
  }

  lemma SampleEntryIsText(t: Table)
    requires WellFormed(t.table, t.columnsType) && t.columnsType == StudentTable().columnsType && |t.table[0]| == 4
    ensures TextEntry(t, 1)
  {
    hide Position, ColumnAt;
    SampleEntries(1);
  }

  /** Without Eve the row of Math has lost a partner. */
  lemma EveIsLeft()
    requires WellFormed(CourseTable().table, CourseTable().columnsType) && HasColumn(WithoutEve().table, 2)
    ensures !NothingLeft(CourseTable(), StudentTable(), CourseTable(), WithoutEve(), 1, "Math")
  {
    hide RowsWith, OldRows, Partners;
    MathRows();
    TakersOfMath(StudentTable());
    TakersOfMath(WithoutEve());
    var selected := RowsWith(CourseTable(), 1, "Math");
    assert selected[0] == 1;
  }

  /** The answer is not the plaintext one. */
  ghost predicate DoesNotShow(s: Scheme, out: Option<Result<seq<seq<string>>>>, t1: Table, t2: Table) {
    && Joinable(t1, t2) && 1 < |t1.table[0]| && TextEntry(t2, 1)
    && !ShowsJoin(s, out, t1, 1, "Math", t2, 1)
  }

  /** Running the session, deleting Eve, and running it again: the law of a second session says that the
      answer does not show the plaintext join, which is Bob alone. Eve is still in it. */
  method SessionsAroundDeletion(s: Scheme) returns (first: Option<Result<seq<seq<string>>>>,
      second: Option<Result<seq<seq<string>>>>)
    requires SampleFits(s)
    ensures first == second == Some(Ok([["Bob"], ["Eve"]]))
    ensures DoesNotShow(s, second, CourseTable(), WithoutEve())
  {
    hide Assumptions, TwoSessionsFit, SessionFits, Shown, PlainJoin, Storable, Fault, SymmetricInverts, ShowsEntry,
      Represents, SessionUploads, RunPlans, FindsEntry, Replies, Serves, JoinIn, Lookup, LabelsDistinct, Homomorphic,
      NothingLonger, JoinNotLonger, Position, ColumnAt, Tag, ValueKey;
    var courses, students := CourseTable(), StudentTable();
    LabelsAreDistinctNow(s);
    SampleTablesAreStorable(s);
    WithoutEveIsStorable(s);
    SampleEntries(1);
    SampleJoin();
    WithoutEveIsCutDown();
    FirstSessionFits(s, courses, students, 1, "Math");
    EmptyRepresents(s);
    EmptyIsInNoWay(courses, students);
    var db := new Database();
    var fault;
    ghost var cat, next;
    SampleIsAsked(students, 1);
    fault, first, cat := TestSql(s, db, map[], courses, students, 1, "Math", 1);
    SampleAnswer(s, first);
    SessionServesIff(s, map[], courses, students, cat);
    SampleSecondFits(s, cat, WithoutEve());
    SampleEntryIsText(WithoutEve());
    SampleIsAsked(WithoutEve(), 1);
    fault, second, next := TestSql(s, db, cat, courses, WithoutEve(), 1, "Math", 1);
    KeyOfMath(s);
    SecondSessionFinds(s, cat, courses, students, courses, WithoutEve(), next, db.tables, 1, "Math", 1);
    EntryIsShown(s, "string", RunPlans(s, db.tables, JoinPlan(s, COURSES, 1, "Math", 0, STUDENTS, 2, 1), None), second,
                 students, 1, [1, 2]);
    SampleAnswer(s, second);
    EveIsLeft();
    LeftByFirst(s, cat);
  }

  lemma LeftByFirst(s: Scheme, cat: Catalog)
    requires Serves(s, cat, CourseTable()) && Serves(s, cat, StudentTable())
    requires JoinIn(s, Lookup(cat, PairName()), CourseTable(), 0, StudentTable(), 2)
    ensures LeftBy(s, cat, CourseTable(), StudentTable())
  {
    hide Serves, JoinIn, Lookup, PairName;
  }

  /** Both second versions of the students fit beside the first. */
  lemma SampleSecondFits(s: Scheme, next: Catalog, t2: Table)
    requires SampleFits(s) && (t2 == WithoutEve() || t2 == Rescored()) && Joinable(CourseTable(), StudentTable())
    requires SessionUploads(s, map[], CourseTable(), StudentTable(), next)
    requires Joinable(CourseTable(), t2)
    ensures SessionFits(s, next, CourseTable(), t2, 1, "Math")
  {
    hide Assumptions, TwoSessionsFit, SessionFits, SessionUploads, KeysInScope, JoinPairs, Area;
    SampleScope(s);
    if t2 == WithoutEve() {
      WithoutEveIsCutDown();
      KeysOfFewerRows(s, StudentTable(), t2);
      FewerPairs(CourseTable(), StudentTable(), t2);
      FewerRows(2, 3, 4);
    } else {
      RescoredIsLike();
    }
    SecondSessionFits(s, CourseTable(), StudentTable(), next, t2, 1, "Math");
  }

  lemma SampleScope(s: Scheme)
    requires SampleFits(s) && WellFormed(StudentTable().table, StudentTable().columnsType)
    ensures KeysInScope(s, StudentTable())
  {
    hide Assumptions, KeysInScope;
  }

  // ----- a changed cell that the query does not read -----

  lemma RescoredIsLike()
    ensures WellFormed(Rescored().table, Rescored().columnsType) && HasColumn(Rescored().table, 2)
    ensures |Rescored().table| == 3 && |Rescored().table[0]| == 4
    ensures JoinPairs(CourseTable().table, 0, Rescored().table, 2)
         == JoinPairs(CourseTable().table, 0, StudentTable().table, 2)
  {
    var rows, prior := Rescored().table, StudentTable().table;
    assert rows[0][2] == prior[0][2] && rows[1] == prior[1] && rows[2] == prior[2];
    assert forall r: nat :: r < 3 ==> rows[r][2] == prior[r][2];
  }

  /** A score became rarer, so that the whole table is no longer served. */
  lemma RescoredShrinks()
    requires WellFormed(Rescored().table, Rescored().columnsType)
    ensures !NothingShrank(StudentTable(), Rescored())
  {
    var rows, prior := Rescored().table, StudentTable().table;
    MatchesExact(prior, 3, "80", 3);
    assert prior[0][3] == "80" && 0 in Matches(prior, 3, "80", 3);
    assert rows[0][3] != "80" && rows[1][3] != "80" && rows[2][3] != "80";
    assert Matches(rows, 3, "80", 1) == Matches(rows, 3, "80", 0) == [];
    assert Matches(rows, 3, "80", 2) == Matches(rows, 3, "80", 1);
    assert ValueCount(StudentTable(), 3, "80") > ValueCount(Rescored(), 3, "80");
  }

  lemma RescoredIsStorable(s: Scheme)
    requires s.modulus > 99 && WellFormed(Rescored().table, Rescored().columnsType)
    ensures Storable(s, Rescored().table, Rescored().columnsType)
  {
    hide Fault;
    SampleTablesAreStorable(s);
    ScoreIsStored(s, "81", 8, 1);
    NamesAreStored(s, "A05", "Alice", "16");
    var rows := Rescored().table;
    forall r, c | 0 <= r < 3 && 0 <= c < 4 ensures Fault(s, Rescored().columnsType[c], rows[r][c]) == None {
      if r > 0 {
        assert rows[r] == StudentTable().table[r];
      } else {
        assert rows[0] == ["A05", "Alice", "16", "81"];
      }
    }
  }

  lemma NamesAreStored(s: Scheme, a: string, b: string, c: string)
    ensures Fault(s, "string", a) == Fault(s, "string", b) == Fault(s, "string", c) == None
  {
  }

  lemma NothingIsLeft()
    requires WellFormed(CourseTable().table, CourseTable().columnsType) && HasColumn(Rescored().table, 2)
    ensures NothingLeft(CourseTable(), StudentTable(), CourseTable(), Rescored(), 1, "Math")
    ensures PlainJoin(CourseTable().table, 1, "Math", 0, Rescored().table, 2) == [1, 2]
  {
    hide RowsWith, OldRows, Partners, Cross, JoinedRows;
    MathRows();
    TakersOfMath(StudentTable());
    TakersOfMath(Rescored());
    RescoredJoin();
  }

  lemma RescoredJoin()
    requires HasColumn(Rescored().table, 2)
    ensures PlainJoin(CourseTable().table, 1, "Math", 0, Rescored().table, 2) == [1, 2]
  {
    hide PlainJoin, Partners;
    MathJoin(Rescored());
    TakersOfMath(Rescored());
  }

  /** Running the session, changing Alice's score, and running it again: though the table as a whole is no
      longer served, the law of a second session says that the join query shows the plaintext answer. */
  method SessionsAroundRescoring(s: Scheme) returns (second: Option<Result<seq<seq<string>>>>)
    requires SampleFits(s)
    ensures second == Some(Ok([["Bob"], ["Eve"]]))
  {
    hide Assumptions, TwoSessionsFit, SessionFits, Shown, PlainJoin, Storable, Fault, SymmetricInverts, ShowsEntry,
      Represents, SessionUploads, RunPlans, FindsEntry, Replies, Serves, JoinIn, Lookup, LabelsDistinct, Homomorphic,
      NothingLonger, JoinNotLonger, Position, ColumnAt, Tag, ValueKey, NothingLeft, JoinClear;
    var courses, students := CourseTable(), StudentTable();
    LabelsAreDistinctNow(s);
    SampleTablesAreStorable(s);
    RescoredIsLike();
    RescoredIsStorable(s);
    SampleEntries(1);
    FirstSessionFits(s, courses, students, 1, "Math");
    EmptyRepresents(s);
    EmptyIsInNoWay(courses, students);
    var db := new Database();
    var fault, first;
    ghost var cat, next;
    SampleIsAsked(students, 1);
    fault, first, cat := TestSql(s, db, map[], courses, students, 1, "Math", 1);
    SessionServesIff(s, map[], courses, students, cat);
    SampleSecondFits(s, cat, Rescored());
    SampleEntryIsText(Rescored());
    SampleIsAsked(Rescored(), 1);
    fault, second, next := TestSql(s, db, cat, courses, Rescored(), 1, "Math", 1);
    NothingIsLeft();
    LeftByFirst(s, cat);
    assert ShowsJoin(s, second, courses, 1, "Math", Rescored(), 1);
    RescoredAnswer(s, second);
  }

  lemma RescoredAnswer(s: Scheme, out: Option<Result<seq<seq<string>>>>)
    requires SymmetricInverts(s) && WellFormed(Rescored().table, Rescored().columnsType)
    requires HasColumn(Rescored().table, 2) && TextEntry(Rescored(), 1)
    requires ShowsJoin(s, out, CourseTable(), 1, "Math", Rescored(), 1)
    ensures out == Some(Ok([["Bob"], ["Eve"]]))
  {
    hide Shown, Position, ColumnAt, SymmetricInverts, PlainJoin;
    NameIsShown(s, "Bob");
    NameIsShown(s, "Eve");
    SampleEntries(1);
    RescoredJoin();
    var rows, rs := Rescored().table, [1, 2];
    assert rows[rs[0]][1] == "Bob" && rows[rs[1]][1] == "Eve";
    var answer := out.value.value;
    assert answer[0] == [answer[0][0]] == ["Bob"] && answer[1] == [answer[1][0]] == ["Eve"];
    assert answer == [["Bob"], ["Eve"]];
  }

  lemma KeyOfMath(s: Scheme)
    requires SampleFits(s)
    ensures Tag(s, ValueKey(COURSES, 1, "Math")) in s.tags
  {
    hide Tag, ValueKey, Assumptions, KeysInScope, Area, JoinPairs;
  }

  // ----- a join over numbers -----

  /** A long ciphertext of a number is never read as text. */
  lemma ScoreAsText(s: Scheme, text: string, tens: nat, ones: nat, cipher: string)
    requires s.modulus > 99 && LongCiphers(s) && Encodes(s, "int", text, cipher)
    requires tens < 10 && ones < 10 && text == [DigitChar(tens, false), DigitChar(ones, false)]
    ensures DecryptsCell(s, 10 * tens + ones, cipher) && Unsealed(s, cipher) == s.misread(cipher)
  {
    hide Fault, NumberOf;
    ScoreIsStored(s, text, tens, ones);
  }

  lemma ScoresAsText(s: Scheme, found: Option<seq<string>>, out: Option<Result<seq<seq<string>>>>)
    returns (cipher1: string, cipher2: string)
    requires s.modulus > 99 && LongCiphers(s)
    requires FindsEntry(s, found, StudentTable(), 3, [1, 2]) && Replies(s, "string", found, out)
    ensures DecryptsCell(s, 98, cipher1) && DecryptsCell(s, 92, cipher2)
    ensures out == Some(Ok([[s.misread(cipher1)], [s.misread(cipher2)]]))
  {
    hide Encodes, Unsealed, Position, ColumnAt, LongCiphers, DecryptsCell;
    SampleEntries(3);
    var rows, rs := StudentTable().table, [1, 2];
    assert rows[rs[0]][3] == "98" && rows[rs[1]][3] == "92";
    cipher1, cipher2 := found.value[0], found.value[1];
    ScoreAsText(s, "98", 9, 8, cipher1);
    ScoreAsText(s, "92", 9, 2, cipher2);
    var answer := out.value.value;
    assert answer[0] == [answer[0][0]] == [s.misread(cipher1)];
    assert answer[1] == [answer[1][0]] == [s.misread(cipher2)];
    assert answer == [[s.misread(cipher1)], [s.misread(cipher2)]];
  }

  /** The plan of a join asks for text whatever it projects: asking for the scores of the students who take
      Math hands their ciphertexts to the text decryption, which they overflow. Whatever comes of that is
      shown; it need not be 98 and 92. */
  method ScoreSession(s: Scheme)
    returns (res: Option<Result<seq<seq<string>>>>, ghost cipher1: string, ghost cipher2: string)
    requires SampleFits(s) && LongCiphers(s)
    ensures DecryptsCell(s, 98, cipher1) && DecryptsCell(s, 92, cipher2)
    ensures res == Some(Ok([[s.misread(cipher1)], [s.misread(cipher2)]]))
    ensures (forall cipher :: s.misread(cipher) == "") ==> res == Some(Ok([[""], [""]]))
  {
    hide Assumptions, TwoSessionsFit, SessionFits, PlainJoin, Storable, Fault, ShowsEntry, Represents, SessionUploads,
      RunPlans, FindsEntry, Replies, LabelsDistinct, Homomorphic, Position, ColumnAt, Tag, ValueKey, LongCiphers,
      NothingInTheWay, DecryptsCell;
    var courses, students := CourseTable(), StudentTable();
    LabelsAreDistinctNow(s);
    SampleTablesAreStorable(s);
    SampleEntries(3);
    SampleJoin();
    FirstSessionFits(s, courses, students, 1, "Math");
    EmptyRepresents(s);
    EmptyIsInNoWay(courses, students);
    KeyOfMath(s);
    var db := new Database();
    var fault;
    ghost var next;
    SampleIsAsked(students, 3);
    fault, res, next := TestSql(s, db, map[], courses, students, 1, "Math", 3);
    SessionFinds(s, map[], courses, students, next, db.tables, 1, "Math", 3);
    cipher1, cipher2 := ScoresAsText(s,
      RunPlans(s, db.tables, JoinPlan(s, COURSES, 1, "Math", 0, STUDENTS, 2, 3), None), res);
  }

  // ----- the students alone -----

  lemma StudentsFit(s: Scheme)
    requires SampleFits(s)
    ensures WellFormed(StudentTable().table, StudentTable().columnsType)
    ensures Admits(s, map[], STUDENTS, StudentTable().table, StudentTable().columnsType)
    ensures Tag(s, ValueKey(STUDENTS, 2, "16")) in s.tags
  {
    hide Assumptions, KeysInScope, Area, Tag, ValueKey, JoinPairs, Admits, Lookup;
    SampleTablesJoin();
    SampleScope(s);
    KeyOfAlice(s);
    EmptyTotals(ROW_TABLE);
    EmptyTotals(VALUE_TABLE);
    EmptyTotals(COLUMN_TABLE);
    TableFits(s, map[], StudentTable());
  }

  lemma RowOfAlice()
    ensures RowsWith(StudentTable(), 2, "16") == [0]
  {
    var rows := StudentTable().table;
    assert Matches(rows, 2, "16", 1) == Matches(rows, 2, "16", 0) + [0] == [0];
    assert Matches(rows, 2, "16", 2) == Matches(rows, 2, "16", 1) + [];
    assert Matches(rows, 2, "16", 3) == Matches(rows, 2, "16", 2) + [];
  }

  /** The score of the student of course 16, in plaintext. */
  lemma ScoreOfAlice(s: Scheme)
    requires WellFormed(StudentTable().table, StudentTable().columnsType)
    ensures PlainSelect(StudentTable(), 2, "16", 3) == [["80"]] && SelectedFaithful(s, StudentTable(), 2, "16", 3)
    ensures OwnEntry(StudentTable(), 3)
  {
    hide RowsWith, Position, ColumnAt;
    RowOfAlice();
    SampleEntries(3);
    assert StudentTable().table[0][3] == "80" && StudentTable().columnsType[3] == "int";
    assert PlainSelect(StudentTable(), 2, "16", 3)[0] == ["80"];
  }

  /** `SELECT Score FROM student WHERE Course = 16` shows the number 80. */
  method ScoreOfCourse(s: Scheme) returns (res: Option<Result<seq<seq<string>>>>)
    requires SampleFits(s)
    ensures res == Some(Ok([["80"]]))
  {
    hide Assumptions, SampleFits, Represents, Admits, Tag, ValueKey, Uploaded, RepliesTo, SelectPlan, OwnEntry,
      PlainSelect, SelectedFaithful, ShowsAnswer, RowsWith, FieldsOf, LeftRows, NothingUnder, Storable, Named,
      LabelsDistinct, OnlyEmptyTexts;
    var students := StudentTable();
    assert Assumptions(s) && s.modulus > 99 by {
      SampleModulus(s);
    }
    StudentsFit(s);
    SampleTablesAreStorable(s);
    EmptyRepresents(s);
    NothingAtFirst(STUDENTS);
    StudentColumnsAreNamed(students, 2);
    StudentColumnsAreNamed(students, 3);
    ScoreOfAlice(s);
    var db := new Database();
    var fault;
    ghost var next;
    fault, res, next := SelectSession(s, db, map[], students, 2, "16", 3, []);
  }

  lemma SampleModulus(s: Scheme)
    requires SampleFits(s)
    ensures Assumptions(s) && s.modulus > 99
  {
    hide Assumptions, SessionsFit;
  }

  lemma SumOfScores(s: Scheme)
    requires s.modulus > 99 && WellFormed(StudentTable().table, StudentTable().columnsType)
    ensures IntColumn(s, StudentTable().table, 3)
    ensures Sum(Numbers(s, StudentTable().table, 3)) == 270
  {
    hide Fault, NumberOf;
    ScoreIsStored(s, "80", 8, 0);
    ScoreIsStored(s, "98", 9, 8);
    ScoreIsStored(s, "92", 9, 2);
    var rows := StudentTable().table;
    assert rows[0][3] == "80" && rows[1][3] == "98" && rows[2][3] == "92";
    var ns := Numbers(s, rows, 3);
    assert ns == [80, 98, 92];
    assert ns[..2] == [80, 98] && [80, 98][..1] == [80] && [80][..0] == [];
    assert Sum([80]) == 80 && Sum([80, 98]) == 178;
  }

  lemma TwoHundredSeventy()
    ensures Dec(270) == "270"
  {
    assert Dec(2) == "2" && Dec(27) == "27";
  }

  /** `SELECT SUM(Score) FROM student` shows 270, for a modulus above it. */
  method TotalScore(s: Scheme) returns (res: Option<Result<seq<seq<string>>>>)
    requires SampleFits(s)
    ensures res == Some(Ok([["270"]])) <==> s.modulus > 270
  {
    res := TotalUnder(s, []);
  }

  /** `SELECT SUM(Score) FROM student WHERE Course = 16` shows 270 as well, and not the 80 of the one student
      who takes that course. */
  method ScoreSumOfCourse(s: Scheme) returns (res: Option<Result<seq<seq<string>>>>)
    requires SampleFits(s)
    ensures res == Some(Ok([["270"]])) <==> s.modulus > 270
  {
    hide SampleFits;
    CourseIsNoJoin();
    res := TotalUnder(s, [("Course", "16")]);
  }

  lemma CourseIsNoJoin()
    ensures !IsJoin([("Course", "16")])
  {
    hide Parts, Undotted;
    assert '.' !in "Course";
    UndottedIsOnePart("Course");
  }

  method TotalUnder(s: Scheme, conditions: seq<(string, string)>) returns (res: Option<Result<seq<seq<string>>>>)
    requires SampleFits(s) && !IsJoin(conditions)
    ensures res == Some(Ok([["270"]])) <==> s.modulus > 270
  {
    hide Assumptions, SampleFits, Represents, Admits, Uploaded, LeftCells, Decrypted, NothingUnder, Storable, Named,
      Sum, IntColumn, Dec, IsJoin;
    var students := StudentTable();
    SampleModulus(s);
    StudentsFit(s);
    SampleTablesAreStorable(s);
    EmptyRepresents(s);
    NothingAtFirst(STUDENTS);
    StudentColumnsAreNamed(students, 3);
    SumOfScores(s);
    TwoHundredSeventy();
    assert |LeftCells(map[], students, 3)| == 0 by {
      NothingLeftAtFirst();
    }
    var db := new Database();
    var fault;
    ghost var next;
    fault, res, next := SumSession(s, db, map[], students, 3, conditions);
  }

  lemma NothingLeftAtFirst()
    ensures LeftCells(map[], StudentTable(), 3) == []
  {
  }

  // ----- a cell that cannot be stored -----

  /** A student whose score is no number. */
  function Absent(): Table {
    StudentTable().(table := [["A05", "Alice", "16", "absent"]])
  }

  lemma AbsentIsNotStorable(s: Scheme)
    ensures Fault(s, "int", "absent") == Some(InvalidArgument)
    ensures WellFormed(Absent().table, Absent().columnsType) && !Storable(s, Absent().table, Absent().columnsType)
    ensures Matches(Absent().table, 2, "16", 1) == [0]
  {
    hide Fault;
    AbsentIsNoNumber(s);
    var row := Absent().table[0];
    assert Fault(s, Absent().columnsType[3], row[3]) == Some(InvalidArgument);
    assert Matches(Absent().table, 2, "16", 1) == Matches(Absent().table, 2, "16", 0) + [0];
  }

  lemma KeyOfAlice(s: Scheme)
    requires SampleFits(s)
    ensures Tag(s, ValueKey(STUDENTS, 2, "16")) in s.tags
  {
    hide Tag, ValueKey, Indexed, Assumptions, Area, JoinPairs;
    assert StudentTable().table[0][2] == "16";
  }

  lemma AbsentIsNoNumber(s: Scheme)
    ensures Fault(s, "int", "absent") == Some(InvalidArgument)
  {
  }

  /** After a run with that table the client remembers it, but a query for its only row finds nothing. */
  lemma AbsentIsRememberedNotFound(s: Scheme, states: seq<State>, tables: StoredTables)
    requires SampleFits(s) && Run(s, states, [ByTable(CourseTable()), ByTable(Absent())])
    requires states[0] == State(map[], map[]) && Represents(s, Last(states).catalog, tables)
    ensures STUDENTS in Last(states).tables && Last(states).tables[STUDENTS] == Absent()
    ensures LabelsDistinct(s)
    ensures RunPlans(s, tables, SelectPlan(s, STUDENTS, 2, "16", 1, "string"), None) == Some([])
  {
    hide Assumptions, TwoSessionsFit, LabelsDistinct, Represents, Run, RunPlans, SelectPlan, Storable, Tag, ValueKey,
      NothingUnder, Fault;
    var events := [ByTable(CourseTable()), ByTable(Absent())];
    LabelsAreDistinctNow(s);
    SampleTablesAreStorable(s);
    AbsentIsNotStorable(s);
    NothingAtFirst(STUDENTS);
    RunStates(s, states, events);
    PairNamesApart(events);
    RunRemembers(s, states, events, 1, 2);
    NewNameServesIff(s, states, events, 1);
    assert events[0].t == CourseTable();
    RunCreatesIff(s, states, events, VALUE_TABLE, 2);
    KeyOfAlice(s);
    UnstoredSelect(s, Last(states).catalog, tables, STUDENTS, 2, "16", 1, "string");
  }

  // ----- uploads by file -----

  /** A file of the table, a line for the columns, the types and each row. */
  function FileOf(t: Table): string {
    Written(JoinedLines([t.columns, t.columnsType] + t.table), seq(|t.table| + 2, _ => "\n"))
  }

  lemma FileIsRead(name: string, t: Table)
    requires '.' !in name && t.name == name && t.keyType == []
    requires Readable(t.columns) && Readable(t.columnsType) && forall r :: 0 <= r < |t.table| ==> Readable(t.table[r])
    ensures TableOfFile(name + ".csv", FileOf(t)) == t
  {
    hide Readable, Written, Lines, CutAt;
    var nameless := t.(name := "");
    var breaks := seq(|t.table| + 2, _ => "\n");
    FileRoundTrip(nameless, breaks);
    CutGivesIff(name, name + ".csv", '.');
  }

  lemma CoursesAreReadable()
    ensures Readable(["Course", "CourseName"]) && Readable(["string", "string"])
    ensures Readable(["16", "CS"]) && Readable(["18", "Math"])
  {
  }

  lemma StudentHeadIsReadable()
    ensures Readable(["ID", "Name", "Course", "Score"]) && Readable(["string", "string", "string", "int"])
  {
  }

  lemma StudentsAreReadable()
    ensures Readable(["A05", "Alice", "16", "80"]) && Readable(["A12", "Bob", "18", "98"])
    ensures Readable(["A03", "Eve", "18", "92"])
  {
  }

  lemma SampleFilesAreRead()
    ensures TableOfFile("courseinfo.csv", FileOf(CourseTable())) == CourseTable()
    ensures TableOfFile("student.csv", FileOf(StudentTable())) == StudentTable()
  {
    hide FileOf, TableOfFile, Readable;
    CoursesAreReadable();
    StudentHeadIsReadable();
    StudentsAreReadable();
    assert COURSES + ".csv" == "courseinfo.csv" && STUDENTS + ".csv" == "student.csv";
    FileIsRead(COURSES, CourseTable());
    FileIsRead(STUDENTS, StudentTable());
  }

  /** Uploading both sample tables by file leaves the join unwritten, and the query without an answer. */
  lemma FileRunFails(s: Scheme, states: seq<State>, tables: StoredTables)
    requires SampleFits(s) && Run(s, states, [ByFile(CourseTable()), ByFile(StudentTable())])
    requires states[0] == State(map[], map[]) && Represents(s, Last(states).catalog, tables)
    ensures LabelsDistinct(s)
    ensures RunPlans(s, tables, JoinPlan(s, COURSES, 1, "Math", 0, STUDENTS, 2, 1), None) == None
  {
    hide Assumptions, TwoSessionsFit, LabelsDistinct, Represents, Run, RunPlans, JoinPlan, Serves, Storable, Tag,
      ValueKey,
      NothingUnder, Fault, PairName, Lookup;
    var events := [ByFile(CourseTable()), ByFile(StudentTable())];
    LabelsAreDistinctNow(s);
    SampleTablesAreStorable(s);
    PairNamesApart(events);
    NothingAtFirst(COURSES);
    RunStates(s, states, events);
    NewNameServesIff(s, states, events, 0);
    FilesRefreshNothing(s, states);
    UnrefreshedJoin(s, states, events);
    KeyOfMath(s);
    UnwrittenJoin(s, Last(states).catalog, tables, CourseTable(), 1, "Math", 1);
    assert Matches(CourseTable().table, 1, "Math", 2) == Matches(CourseTable().table, 1, "Math", 1) + [1];
  }

  lemma PairNamesApart(events: seq<Event>)
    requires |events| == 2 && events[0].t.name == COURSES && events[1].t.name == STUDENTS
    ensures NamesApart(events)
  {
    hide Apart;
    NamesOfPair();
  }

  lemma FilesRefreshNothing(s: Scheme, states: seq<State>)
    requires |states| == 3
    ensures !EverRefreshed(s, states, [ByFile(CourseTable()), ByFile(StudentTable())])
  {
  }

  lemma FirstFileStep(s: Scheme, st0: State, st1: State)
    requires s.modulus > 99 && st0 == State(map[], map[]) && Step(s, st0, ByFile(CourseTable()), st1)
    ensures Uploaded(s, map[], CourseTable(), st1.catalog)
    ensures st1.tables == map[COURSES := CourseTable()]
  {
    hide Uploaded, Storable;
    SampleTablesAreStorable(s);
  }

  lemma FileRun(s: Scheme, states: seq<State>)
    requires |states| == 3 && states[0].tables == map[]
    requires Step(s, states[0], ByFile(CourseTable()), states[1])
    requires Step(s, states[1], ByFile(StudentTable()), states[2])
    ensures Run(s, states, [ByFile(CourseTable()), ByFile(StudentTable())])
  {
    hide Step;
  }

  method FileSession(s: Scheme) returns (res: Option<Result<seq<seq<string>>>>)
    requires SampleFits(s)
    ensures res == None
  {
    hide Assumptions, TwoSessionsFit, SessionFits, Storable, Fault, Represents, Uploaded, LabelsDistinct, Homomorphic,
      EntriesDistinct, Tag, ValueKey, Step, FileOf, TableOfFile, RunPlans, Dec, JoinAsked, JoinPlan;
    var courses, students := CourseTable(), StudentTable();
    SampleFilesAreRead();
    SampleTablesAreStorable(s);
    FirstSessionFits(s, courses, students, 1, "Math");
    EmptyRepresents(s);
    var db := new Database();
    var service := new EncryptService(s, db, map[]);
    ghost var st0 := service.Now();
    FirstFits(s, map[], courses, students, 1, "Math");
    var fault := service.UploadFileIntoSql("courseinfo.csv", FileOf(courses));
    ghost var st1 := service.Now();
    FirstFileStep(s, st0, st1);
    SecondFits(s, map[], courses, st1.catalog, students, 1, "Math");
    fault := service.UploadFileIntoSql("student.csv", FileOf(students));
    ghost var states := [st0, st1, service.Now()];
    FileRun(s, states);
    FileRunFails(s, states, db.tables);
    assert COURSES in service.tableMap - {STUDENTS};
    SampleIsAsked(students, 1);
    res := AskForJoin(service, courses, 1, "Math", students, 1);
  }
}
