/** What a text of the controller database has to look like (src/vds_config.cc), field by field and line by
    line, and the proof that exactly these texts are read, as exactly these records. */
module ConfigFormat {
  import opened VdsTypes
  import opened VdsConfig
  import opened Jsonl
  import opened JsonlGrammar
  import opened ConfigDb

  // ---------------------------------------------------------------------------------------------
  // A record
  // ---------------------------------------------------------------------------------------------

  /** Six pairs of hex digits, a colon between two of them. */
  ghost predicate AddressForm(a: string) {
    && |a| == 17
    && forall i :: 0 <= i < 17 ==>
                     if i % 3 == 2 then a[i] == ':' else '0' <= a[i] <= '9' || 'a' <= a[i] <= 'f' || 'A' <= a[i] <= 'F'
  }

  /** `b` is `a` in lower case. */
  ghost predicate LowerCaseOf(b: string, a: string) {
    && |b| == |a|
    && forall i :: 0 <= i < |a| ==> b[i] == if 'A' <= a[i] <= 'Z' then (a[i] as int + 32) as char else a[i]
  }

  ghost predicate NamedProfile(name: string, p: Profile) {
    (name == "" && p == Unspecified) || (name == "ds5" && p == Ds5) || (name == "dse" && p == Dse)
  }

  /** The ports in ascending order. */
  ghost predicate SortedFrom(sorted: seq<nat>, ports: seq<nat>) {
    Ascending(sorted) && multiset(sorted) == multiset(ports)
  }

  /** `c` is what an address, a profile name and ports say. */
  ghost predicate Says(address: string, name: string, ports: seq<nat>, c: ControllerConfig) {
    && AddressForm(address) && LowerCaseOf(c.address, address)
    && NamedProfile(name, c.profile)
    && Distinct(ports) && (forall p :: p in ports ==> p < 4) && SortedFrom(c.ports, ports)
  }

  lemma FormIsAddress(a: string)
    ensures AddressForm(a) <==> IsAddress(a)
    ensures IsAddress(a) ==> forall b: string :: LowerCaseOf(b, a) <==> b == Lowered(a)
  {
    assert forall i :: 0 <= i < 17 ==> (i % 3 == 2 <==> IsSeparator(i));
    if IsAddress(a) {
      forall b: string ensures LowerCaseOf(b, a) <==> b == Lowered(a) {
        IsLowered(a, b);
      }
    }
  }

  lemma IsLowered(a: string, b: string)
    requires IsAddress(a)
    ensures LowerCaseOf(b, a) <==> b == Lowered(a)
  {
    forall i | 0 <= i < |a| ensures LowercaseHex(a[i]) == if 'A' <= a[i] <= 'Z' then (a[i] as int + 32) as char else a[i] {
    }
    if LowerCaseOf(b, a) {
      assert b == Lowered(a);
    }
  }

  lemma {:induction false} SortIsOnly(sorted: seq<nat>, ports: seq<nat>)
    ensures SortedFrom(sorted, ports) <==> sorted == Sort(ports)
  {
    SortSorts(ports);
    hide Sort;
    if SortedFrom(sorted, ports) {
      OneOrder(sorted, Sort(ports));
    }
  }

  /** There is one ascending order. */
  lemma {:induction false} OneOrder(a: seq<nat>, b: seq<nat>)
    requires Ascending(a) && Ascending(b) && multiset(a) == multiset(b)
    ensures a == b
    decreases |a|
  {
    hide Ascending;
    if a == [] {
      assert |multiset(b)| == 0;
    } else {
      var n := |a| - 1;
      SameEnds(a, b);
      LastLeaves(a);
      LastLeaves(b);
      OneOrder(a[..n], b[..n]);
    }
  }

  lemma LastLeaves(a: seq<nat>)
    requires a != []
    ensures multiset(a[..|a| - 1]) == multiset(a) - multiset{a[|a| - 1]} && a == a[..|a| - 1] + [a[|a| - 1]]
  {
    assert a == a[..|a| - 1] + [a[|a| - 1]];
  }

  lemma SameEnds(a: seq<nat>, b: seq<nat>)
    requires Ascending(a) && Ascending(b) && multiset(a) == multiset(b) && a != []
    ensures |a| == |b| && a[|a| - 1] == b[|b| - 1] && Ascending(a[..|a| - 1]) && Ascending(b[..|b| - 1])
  {
    hide Ascending;
    assert |a| == |multiset(a)| == |b|;
    assert b[|b| - 1] in multiset(b) && a[|a| - 1] in multiset(a);
    LastIsGreatest(a, b[|b| - 1]);
    LastIsGreatest(b, a[|a| - 1]);
  }

  lemma LastIsGreatest(a: seq<nat>, x: nat)
    requires Ascending(a) && a != [] && x in multiset(a)
    ensures x <= a[|a| - 1] && Ascending(a[..|a| - 1])
  {
    assert x in a;
  }

  lemma MakesExactly(address: string, name: string, ports: seq<nat>, c: ControllerConfig)
    ensures MakeConfig(address, name, ports) == Some(c) <==> Says(address, name, ports, c)
  {
    hide IsAddress, Sort, SortedFrom, AddressForm, LowerCaseOf;
    FormIsAddress(address);
    PortsAccepted(ports);
    SortIsOnly(c.ports, ports);
  }

  ghost predicate OccursOnce(fs: seq<Field>, f: Field, i: nat) {
    i < |fs| && fs[i] == f && forall j :: 0 <= j < |fs| && j != i ==> fs[j].key != f.key
  }

  lemma {:induction false} FindsNone(fs: seq<Field>, key: string)
    ensures FindField(fs, key) == Ok(None) <==> forall i :: 0 <= i < |fs| ==> fs[i].key != key
  {
    if fs != [] {
      FindsNone(fs[..|fs| - 1], key);
    }
  }

  /** A field that is found occurs once. */
  lemma {:induction false} FindsOnce(fs: seq<Field>, key: string) returns (i: nat)
    requires FindField(fs, key).Ok? && FindField(fs, key).value.Some?
    ensures OccursOnce(fs, Field(key, FindField(fs, key).value.value), i)
  {
    var before, last := fs[..|fs| - 1], fs[|fs| - 1];
    if last.key == key {
      FindsNone(before, key);
      i := |fs| - 1;
      forall j | 0 <= j < |fs| && j != i ensures fs[j].key != key {
        assert fs[j] == before[j];
      }
    } else {
      i := FindsOnce(before, key);
      assert fs[i] == before[i];
      forall j | 0 <= j < |fs| && j != i ensures fs[j].key != key {
        assert j < |before| ==> fs[j] == before[j];
      }
    }
  }

  /** The three fields of a record. */
  function Three(address: string, name: string, ports: seq<nat>): multiset<Field> {
    multiset{Field("address", StringValue(address)), Field("profile", StringValue(name)), Field("ports", ArrayValue(ports))}
  }

  function Bag(a: Field, b: Field, c: Field): multiset<Field> {
    multiset{a, b, c}
  }

  lemma OfThree(fs: seq<Field>, i: nat, j: nat, k: nat)
    requires |fs| == 3 && i < 3 && j < 3 && k < 3 && i != j && i != k && j != k
    ensures multiset(fs) == Bag(fs[i], fs[j], fs[k])
  {
    hide Bag, One;
    ThreeOnes(fs);
    InAnyOrder(fs[0], fs[1], fs[2]);
    if i == 0 {
      assert (j == 1 && k == 2) || (j == 2 && k == 1);
    } else if i == 1 {
      assert (j == 0 && k == 2) || (j == 2 && k == 0);
    } else {
      assert (j == 0 && k == 1) || (j == 1 && k == 0);
    }
  }

  lemma InAnyOrder(a: Field, b: Field, c: Field)
    ensures var all := One(a) + One(b) + One(c);
            && Bag(a, b, c) == all && Bag(a, c, b) == all && Bag(b, a, c) == all
            && Bag(b, c, a) == all && Bag(c, a, b) == all && Bag(c, b, a) == all
  {
    hide Bag, One;
    AnyOrder(One(a), One(b), One(c));
    OnesOf(a, b, c);
    OnesOf(a, c, b);
    OnesOf(b, a, c);
    OnesOf(b, c, a);
    OnesOf(c, a, b);
    OnesOf(c, b, a);
  }

  function One(f: Field): multiset<Field> {
    multiset{f}
  }

  lemma OnesOf(a: Field, b: Field, c: Field)
    ensures Bag(a, b, c) == One(a) + One(b) + One(c)
  {
  }

  lemma AnyOrder(a: multiset<Field>, b: multiset<Field>, c: multiset<Field>)
    ensures a + b + c == a + c + b
    ensures a + b + c == b + a + c
    ensures a + b + c == b + c + a
    ensures a + b + c == c + a + b
    ensures a + b + c == c + b + a
  {
  }

  lemma ThreeOnes(fs: seq<Field>)
    requires |fs| == 3
    ensures multiset(fs) == One(fs[0]) + One(fs[1]) + One(fs[2])
  {
    assert fs == [fs[0]] + [fs[1]] + [fs[2]];
  }

  predicate Among(m: nat, i: nat, j: nat, k: nat) {
    m == i || m == j || m == k
  }

  lemma ThreeIndices(n: nat, i: nat, j: nat, k: nat)
    requires i < n && j < n && k < n && i != j && i != k && j != k
    requires forall m: nat :: m < n ==> Among(m, i, j, k)
    ensures n == 3
  {
    FourAmongThree(i, j, k);
  }

  lemma FourAmongThree(i: nat, j: nat, k: nat)
    ensures !Among(0, i, j, k) || !Among(1, i, j, k) || !Among(2, i, j, k) || !Among(3, i, j, k)
  {
  }

  lemma ThreeInAll(fs: seq<Field>, a: Field, b: Field, c: Field, i: nat, j: nat, k: nat)
    requires OccursOnce(fs, a, i) && OccursOnce(fs, b, j) && OccursOnce(fs, c, k)
    requires a.key != b.key && a.key != c.key && b.key != c.key
    requires forall m :: 0 <= m < |fs| ==> fs[m].key == a.key || fs[m].key == b.key || fs[m].key == c.key
    ensures multiset(fs) == multiset{a, b, c}
  {
    forall m: nat | m < |fs| ensures Among(m, i, j, k) {
      assert fs[m].key == a.key || fs[m].key == b.key || fs[m].key == c.key;
    }
    ThreeIndices(|fs|, i, j, k);
    OfThree(fs, i, j, k);
  }

  lemma KnownAreThree(fs: seq<Field>, address: string, name: string, ports: seq<nat>)
    requires KnownFields(fs, EXPECTED_FIELDS)
    requires RequireString(fs, "address") == Some(address) && RequireString(fs, "profile") == Some(name)
    requires RequireArray(fs, "ports") == Some(ports)
    ensures multiset(fs) == Three(address, name, ports)
  {
    hide FindField, OccursOnce, KnownFields;
    var i := FindsOnce(fs, "address");
    var j := FindsOnce(fs, "profile");
    var k := FindsOnce(fs, "ports");
    KnownKeys(fs);
    hide RequireString, RequireArray;
    ThreeInAll(fs, Field("address", StringValue(address)), Field("profile", StringValue(name)), Field("ports", ArrayValue(ports)), i, j, k);
  }

  lemma KnownKeys(fs: seq<Field>)
    ensures KnownFields(fs, EXPECTED_FIELDS)
       <==> forall m :: 0 <= m < |fs| ==> fs[m].key == "address" || fs[m].key == "profile" || fs[m].key == "ports"
  {
    assert EXPECTED_FIELDS[0] == "address" && EXPECTED_FIELDS[1] == "profile" && EXPECTED_FIELDS[2] == "ports";
  }

  lemma ThreeAreFound(fs: seq<Field>, address: string, name: string, ports: seq<nat>)
    requires multiset(fs) == Three(address, name, ports)
    ensures KnownFields(fs, EXPECTED_FIELDS)
    ensures RequireString(fs, "address") == Some(address) && RequireString(fs, "profile") == Some(name)
    ensures RequireArray(fs, "ports") == Some(ports)
  {
    hide FindField, KnownFields;
    var a, b, c := Field("address", StringValue(address)), Field("profile", StringValue(name)), Field("ports", ArrayValue(ports));
    OfSizeThree(fs, a, b, c);
    InThree(fs, a, b, c);
    KnownKeys(fs);
    FindsAll(fs, a, b, c);
  }

  lemma OfSizeThree(fs: seq<Field>, a: Field, b: Field, c: Field)
    requires multiset(fs) == multiset{a, b, c}
    ensures |fs| == 3
  {
    assert |fs| == |multiset(fs)|;
  }

  lemma FindsAll(fs: seq<Field>, a: Field, b: Field, c: Field)
    requires |fs| == 3 && multiset(fs) == multiset{a, b, c} && a.key != b.key && a.key != c.key && b.key != c.key
    ensures FindField(fs, a.key) == Ok(Some(a.value)) && FindField(fs, b.key) == Ok(Some(b.value)) && FindField(fs, c.key) == Ok(Some(c.value))
  {
    hide FindField;
    InThree(fs, a, b, c);
    assert fs == [fs[0], fs[1], fs[2]];
    FindsInThree(fs[0], fs[1], fs[2], a.key);
    FindsInThree(fs[0], fs[1], fs[2], b.key);
    FindsInThree(fs[0], fs[1], fs[2], c.key);
  }

  lemma InThree(fs: seq<Field>, a: Field, b: Field, c: Field)
    requires |fs| == 3 && multiset(fs) == multiset{a, b, c} && a.key != b.key && a.key != c.key && b.key != c.key
    ensures forall i :: 0 <= i < 3 ==> fs[i] == a || fs[i] == b || fs[i] == c
    ensures fs[0].key != fs[1].key && fs[0].key != fs[2].key && fs[1].key != fs[2].key
    ensures (fs[0] == a || fs[1] == a || fs[2] == a) && (fs[0] == b || fs[1] == b || fs[2] == b) && (fs[0] == c || fs[1] == c || fs[2] == c)
  {
    assert fs == [fs[0], fs[1], fs[2]];
    forall i | 0 <= i < 3 ensures fs[i] == a || fs[i] == b || fs[i] == c {
      assert fs[i] in multiset(fs);
    }
    assert a in multiset(fs) && b in multiset(fs) && c in multiset(fs);
  }

  /** `line` is an object of an address, a profile and ports, in any order and nothing else, that says `c`. */
  ghost predicate RecordText(line: string, c: ControllerConfig) {
    exists fs: seq<Field>, address: string, name: string, ports: seq<nat> ::
      SpellsObject(line, fs) && multiset(fs) == Three(address, name, ports) && Says(address, name, ports, c)
  }

  /** A line is read as a record if and only if it is the text of one. */
  lemma RecordsExactly(line: string, c: ControllerConfig)
    ensures ParseRecord(line) == Some(c) <==> RecordText(line, c)
  {
    hide ParseObject, SpellsObject, KnownFields, RequireString, RequireArray, MakeConfig, Says, Three;
    if ParseRecord(line) == Some(c) {
      var fs := ParseObject(line).value;
      ParsesExactly(line, fs);
      var address, name, ports := RequireString(fs, "address").value, RequireString(fs, "profile").value, RequireArray(fs, "ports").value;
      KnownAreThree(fs, address, name, ports);
      MakesExactly(address, name, ports, c);
    }
    if RecordText(line, c) {
      var fs: seq<Field>, address: string, name: string, ports: seq<nat> :|
        SpellsObject(line, fs) && multiset(fs) == Three(address, name, ports) && Says(address, name, ports, c);
      ParsesExactly(line, fs);
      ThreeAreFound(fs, address, name, ports);
      MakesExactly(address, name, ports, c);
    }
  }

  // ---------------------------------------------------------------------------------------------
  // The file
  // ---------------------------------------------------------------------------------------------

  /** The lines as a text, each with its end. */
  function Unlines(lines: seq<string>): string {
    if lines == [] then "" else lines[0] + "\n" + Unlines(lines[1..])
  }

  /** The lines of a text are the text, cut at the line ends. */
  lemma {:induction false} LinesExactly(t: string)
    ensures Unlines(Lines(t)) == if Complete(t) then t else t + "\n"
    ensures forall i :: 0 <= i < |Lines(t)| ==> OneLine(Lines(t)[i])
    decreases |t|
  {
    hide LineEnd, OneLine, Lines, Unlines, Complete;
    if t == [] {
      NothingToCut();
    } else if LineEnd(t) == |t| {
      LastLineCut(t);
    } else {
      var line, rest := t[..LineEnd(t)], t[LineEnd(t) + 1..];
      FirstLineCut(t, line, rest);
      LinesExactly(rest);
      LinesMore(line, Lines(rest));
      EndsAlike(t, line, rest);
    }
  }

  lemma NothingToCut()
    ensures Lines("") == [] && Unlines([]) == "" && Complete("")
  {
  }

  lemma LastLineCut(t: string)
    requires t != [] && LineEnd(t) == |t|
    ensures Lines(t) == [t] && OneLine(t) && Unlines([t]) == t + "\n" && !Complete(t)
  {
    assert Unlines([t][1..]) == "";
    hide LineEnd;
  }

  lemma FirstLineCut(t: string, line: string, rest: string)
    requires LineEnd(t) < |t| && line == t[..LineEnd(t)] && rest == t[LineEnd(t) + 1..]
    ensures Lines(t) == [line] + Lines(rest) && OneLine(line) && t == line + "\n" + rest
  {
    hide LineEnd;
    assert t == t[..LineEnd(t)] + [t[LineEnd(t)]] + t[LineEnd(t) + 1..];
    hide Lines;
    OneLineMore(t, line, rest);
  }

  lemma OneLineMore(t: string, line: string, rest: string)
    requires LineEnd(t) < |t| && line == t[..LineEnd(t)] && rest == t[LineEnd(t) + 1..]
    ensures Lines(t) == [line] + Lines(rest)
  {
    hide LineEnd;
  }

  lemma EndsAlike(t: string, line: string, rest: string)
    requires t == line + "\n" + rest
    ensures Complete(t) <==> Complete(rest)
    ensures line + "\n" + (rest + "\n") == t + "\n"
  {
    assert rest != [] ==> t[|t| - 1] == rest[|rest| - 1];
  }

  lemma LinesMore(line: string, lines: seq<string>)
    ensures Unlines([line] + lines) == line + "\n" + Unlines(lines)
  {
    assert ([line] + lines)[1..] == lines;
  }

  /** Without the carriage return a line may end with. */
  ghost predicate Stripped(line: string, s: string) {
    line == s + "\r" || (line == s && (s == "" || s[|s| - 1] != '\r'))
  }

  lemma StripsExactly(line: string, s: string)
    ensures Stripped(line, s) <==> s == StripReturn(line)
  {
    if line != [] && line[|line| - 1] == '\r' {
      assert line == line[..|line| - 1] + "\r";
      if line == s + "\r" {
        assert s == line[..|line| - 1];
      }
    }
  }

  /** The lines that are not empty. */
  function Written(lines: seq<string>): seq<string> {
    if lines == [] then []
    else
      var last := StripReturn(lines[|lines| - 1]);
      Written(lines[..|lines| - 1]) + if last == "" then [] else [last]
  }

  /** `records` are the texts of the records of `db`, one each and in order, no two of an address. */
  ghost predicate DbText(records: seq<string>, db: Db) {
    && |records| == |db|
    && (forall i :: 0 <= i < |db| ==> RecordText(records[i], db[i]))
    && (forall i, j :: 0 <= i < j < |db| ==> db[i].address != db[j].address)
  }

  lemma DbTextStep(records: seq<string>, text: string, db: Db, c: ControllerConfig)
    requires |records| == |db|
    ensures DbText(records + [text], db + [c]) <==> DbText(records, db) && RecordText(text, c) && !HasAddress(db, c.address)
  {
    hide RecordText;
    var rs, d := records + [text], db + [c];
    assert rs[|records|] == text && d[|db|] == c;
    if DbText(rs, d) {
      forall i | 0 <= i < |db| ensures RecordText(records[i], db[i]) && db[i].address != c.address {
        assert rs[i] == records[i] && d[i] == db[i];
      }
      forall i, j | 0 <= i < j < |db| ensures db[i].address != db[j].address {
        assert d[i] == db[i] && d[j] == db[j];
      }
    }
  }

  /** A text is read as a database if and only if its lines that are not empty are the records, in order. */
  lemma {:induction false} DbExactly(lines: seq<string>, db: Db)
    ensures ParseLines(lines) == Some(db) <==> DbText(Written(lines), db)
    decreases |lines|
  {
    hide ParseRecord, RecordText, HasAddress, StripReturn;
    if lines == [] {
      NothingWritten(db);
    } else {
      var before, text := lines[..|lines| - 1], StripReturn(lines[|lines| - 1]);
      hide DbText;
      if text == "" {
        DbExactly(before, db);
        assert Written(before) + [] == Written(before);
      } else {
        if ParseLines(lines) == Some(db) {
          var d := ParseLines(before).value;
          DbExactly(before, d);
          var c := ParseRecord(text).value;
          RecordsExactly(text, c);
          SameCount(Written(before), d);
          DbTextStep(Written(before), text, d, c);
        }
        if DbText(Written(lines), db) {
          SameCount(Written(lines), db);
          var d, c := db[..|db| - 1], db[|db| - 1];
          assert db == d + [c];
          DbTextStep(Written(before), text, d, c);
          DbExactly(before, d);
          RecordsExactly(text, c);
        }
      }
    }
  }

  lemma NothingWritten(db: Db)
    ensures DbText([], db) <==> db == []
  {
  }

  lemma SameCount(records: seq<string>, db: Db)
    requires DbText(records, db)
    ensures |records| == |db|
  {
  }

  // ---------------------------------------------------------------------------------------------
  // Changes
  // ---------------------------------------------------------------------------------------------

  ghost predicate FirstWith(db: Db, address: string, i: nat) {
    i < |db| && db[i].address == address && forall k :: 0 <= k < i ==> db[k].address != address
  }

  /** A record put in takes the place of the one with its address, or the last place; no other moves. */
  lemma {:induction false} ReplacesInPlace(db: Db, c: ControllerConfig)
    ensures !HasAddress(db, c.address) ==> Replace(db, c) == db + [c]
    ensures forall i: nat :: FirstWith(db, c.address, i) ==> Replace(db, c) == db[i := c]
    decreases |db|
  {
    if db != [] && db[0].address != c.address {
      var rest := db[1..];
      ReplacesInPlace(rest, c);
      assert db == [db[0]] + rest;
      if !HasAddress(db, c.address) {
        forall i | 0 <= i < |rest| ensures rest[i].address != c.address {
          assert rest[i] == db[i + 1];
        }
      }
      forall i: nat | FirstWith(db, c.address, i) ensures Replace(db, c) == db[i := c] {
        FirstInRest(db, c.address, i);
        assert db[i := c] == [db[0]] + rest[i - 1 := c];
      }
    } else if db != [] {
      forall i: nat | FirstWith(db, c.address, i) ensures Replace(db, c) == db[i := c] {
        assert i == 0;
        assert db[0 := c] == [c] + db[1..];
      }
    }
  }

  lemma FirstInRest(db: Db, address: string, i: nat)
    requires FirstWith(db, address, i) && db[0].address != address
    ensures i > 0 && FirstWith(db[1..], address, i - 1)
  {
  }

  /** Of a valid database one record at most is removed; no other moves. */
  lemma {:induction false} RemovesInPlace(db: Db, address: string)
    requires forall i, j :: 0 <= i < j < |db| ==> db[i].address != db[j].address
    ensures !HasAddress(db, address) ==> Others(db, address) == db
    ensures forall i :: 0 <= i < |db| && db[i].address == address ==> Others(db, address) == db[..i] + db[i + 1..]
    decreases |db|
  {
    if db != [] {
      var n := |db| - 1;
      var before := db[..n];
      RemovesInPlace(before, address);
      assert db == before + [db[n]];
      assert forall i :: 0 <= i < n ==> before[i] == db[i];
      forall i | 0 <= i < |db| && db[i].address == address ensures Others(db, address) == db[..i] + db[i + 1..] {
        if i < n {
          CutOut(db, before, i);
        } else {
          assert !HasAddress(before, address);
          assert db[..n] + db[n + 1..] == before;
        }
      }
    }
  }

  lemma CutOut(db: Db, before: Db, i: nat)
    requires db != [] && before == db[..|db| - 1] && i < |before|
    ensures before[..i] + before[i + 1..] + [db[|db| - 1]] == db[..i] + db[i + 1..]
  {
    assert before[..i] == db[..i] && before[i + 1..] + [db[|db| - 1]] == db[i + 1..];
  }
}
