/** The controller database (src/vds_config.cc): one JSON object a line, read, changed and written back. */
module ConfigDb {
  import opened VdsTypes
  import opened VdsConfig
  import opened Jsonl

  type Db = seq<ControllerConfig>

  // ---------------------------------------------------------------------------------------------
  // Addresses, profiles, ports
  // ---------------------------------------------------------------------------------------------

  const ADDRESS_LENGTH: nat := 17

  predicate IsSeparator(i: nat) {
    i == 2 || i == 5 || i == 8 || i == 11 || i == 14
  }

  function LowercaseHex(c: char): char {
    if 'A' <= c <= 'F' then ((c as int) - ('A' as int) + ('a' as int)) as char else c
  }

  predicate IsHex(c: char) {
    '0' <= c <= '9' || 'a' <= c <= 'f' || 'A' <= c <= 'F'
  }

  predicate IsAddress(a: string) {
    |a| == ADDRESS_LENGTH && forall i :: 0 <= i < |a| ==> if IsSeparator(i) then a[i] == ':' else IsHex(a[i])
  }

  function Lowered(a: string): (r: string)
    ensures |r| == |a| && forall i :: 0 <= i < |a| ==> r[i] == LowercaseHex(a[i])
  {
    seq(|a|, i requires 0 <= i < |a| => LowercaseHex(a[i]))
  }

  function NormalizeAddress(a: string): Option<string> {
    if IsAddress(a) then Some(Lowered(a)) else None
  }

  /** An address in the one form it is stored in. */
  ghost predicate Normalized(a: string) {
    IsAddress(a) && forall i :: 0 <= i < |a| ==> !('A' <= a[i] <= 'F')
  }

  /** Normalising gives the stored form, and leaves that alone. */
  lemma NormalizeIsCanonical(a: string)
    ensures IsAddress(a) ==> Normalized(Lowered(a))
    ensures Normalized(a) ==> NormalizeAddress(a) == Some(a)
  {
    if Normalized(a) {
      assert Lowered(a) == a;
    }
  }

  method NormalizeBluetoothAddress(address: string) returns (normalized: Option<string>)
    ensures normalized == NormalizeAddress(address)
  {
    if |address| != ADDRESS_LENGTH {
      return None;
    }
    var text := "";
    for i := 0 to |address|
      invariant |text| == i
      invariant forall j :: 0 <= j < i ==> text[j] == LowercaseHex(address[j])
      invariant forall j :: 0 <= j < i ==> if IsSeparator(j) then address[j] == ':' else IsHex(address[j])
    {
      if IsSeparator(i) {
        if address[i] != ':' {
          return None;
        }
        text := text + ":";
      } else {
        if !IsHex(address[i]) {
          return None;
        }
        text := text + [LowercaseHex(address[i])];
      }
    }
    assert text == Lowered(address);
    normalized := Some(text);
  }

  function ProfileName(p: Profile): string {
    match p
    case Unspecified => ""
    case Ds5 => "ds5"
    case Dse => "dse"
  }

  function ParseProfile(name: string): Option<Profile> {
    if name == "" then Some(Unspecified) else if name == "ds5" then Some(Ds5) else if name == "dse" then Some(Dse) else None
  }

  lemma ProfileRoundTrip(p: Profile)
    ensures ParseProfile(ProfileName(p)) == Some(p)
  {
  }

  function InsertSorted(ports: seq<nat>, p: nat): seq<nat> {
    if ports == [] || ports[|ports| - 1] <= p then ports + [p]
    else InsertSorted(ports[..|ports| - 1], p) + [ports[|ports| - 1]]
  }

  function Sort(ports: seq<nat>): seq<nat> {
    if ports == [] then [] else InsertSorted(Sort(ports[..|ports| - 1]), ports[|ports| - 1])
  }

  ghost predicate Ascending(ports: seq<nat>) {
    forall i, j :: 0 <= i < j < |ports| ==> ports[i] <= ports[j]
  }

  ghost predicate ValidPorts(ports: seq<nat>) {
    && (forall i :: 0 <= i < |ports| ==> ports[i] < MAX_PORT_COUNT)
    && (forall i, j :: 0 <= i < j < |ports| ==> ports[i] < ports[j])
  }

  lemma {:induction false} InsertAdds(ports: seq<nat>, p: nat)
    ensures multiset(InsertSorted(ports, p)) == multiset(ports + [p])
    decreases |ports|
  {
    if ports != [] && ports[|ports| - 1] > p {
      var before, last := ports[..|ports| - 1], ports[|ports| - 1];
      InsertAdds(before, p);
      assert ports == before + [last];
      assert multiset(InsertSorted(before, p) + [last]) == multiset(before + [p]) + multiset([last]);
    }
  }

  lemma {:induction false} InsertKeepsAscending(ports: seq<nat>, p: nat)
    requires Ascending(ports)
    ensures Ascending(InsertSorted(ports, p)) && |InsertSorted(ports, p)| == |ports| + 1
    decreases |ports|
  {
    if ports != [] && ports[|ports| - 1] > p {
      var before, last := ports[..|ports| - 1], ports[|ports| - 1];
      InsertKeepsAscending(before, p);
      InsertAdds(before, p);
      AscendsTo(InsertSorted(before, p), before, p, last);
    }
  }

  lemma AscendsTo(inserted: seq<nat>, before: seq<nat>, p: nat, last: nat)
    requires Ascending(inserted) && multiset(inserted) == multiset(before + [p])
    requires p <= last && forall i :: 0 <= i < |before| ==> before[i] <= last
    ensures Ascending(inserted + [last])
  {
    forall i | 0 <= i < |inserted| ensures inserted[i] <= last {
      assert inserted[i] in multiset(inserted);
      assert inserted[i] in before + [p];
    }
  }

  lemma {:induction false} SortSorts(ports: seq<nat>)
    ensures Ascending(Sort(ports)) && multiset(Sort(ports)) == multiset(ports) && |Sort(ports)| == |ports|
    decreases |ports|
  {
    hide Ascending, InsertSorted;
    if ports != [] {
      var before, last := ports[..|ports| - 1], ports[|ports| - 1];
      SortSorts(before);
      InsertKeepsAscending(Sort(before), last);
      InsertAdds(Sort(before), last);
      assert ports == before + [last];
      SameAndOne(Sort(before), before, last);
    } else {
      NothingAscends();
    }
  }

  lemma NothingAscends()
    ensures Ascending([])
  {
  }

  lemma SameAndOne(a: seq<nat>, b: seq<nat>, x: nat)
    requires multiset(a) == multiset(b)
    ensures multiset(a + [x]) == multiset(b + [x])
  {
  }

  lemma {:induction false} SortedStays(ports: seq<nat>)
    requires Ascending(ports)
    ensures Sort(ports) == ports
    decreases |ports|
  {
    if ports != [] {
      var before, last := ports[..|ports| - 1], ports[|ports| - 1];
      SortedStays(before);
      InsertLast(before, last);
      assert ports == before + [last];
      hide Ascending, InsertSorted;
    }
  }

  lemma InsertLast(ports: seq<nat>, p: nat)
    requires ports == [] || ports[|ports| - 1] <= p
    ensures InsertSorted(ports, p) == ports + [p]
  {
  }

  /** Sort the ports; refuse duplicates and ports out of range. */
  method ValidatePorts(ports: seq<nat>) returns (r: Option<seq<nat>>)
    ensures r.Some? <==> ValidPorts(Sort(ports))
    ensures r.Some? ==> r.value == Sort(ports)
  {
    var sorted := Sort(ports);
    SortSorts(ports);
    var i := 1;
    while i < |sorted|
      invariant 1 <= i
      invariant forall j :: 0 < j < i && j < |sorted| ==> sorted[j - 1] < sorted[j]
    {
      if sorted[i - 1] == sorted[i] {
        return None;
      }
      i := i + 1;
    }
    for k := 0 to |sorted|
      invariant forall j :: 0 <= j < k ==> sorted[j] < MAX_PORT_COUNT
    {
      if sorted[k] >= MAX_PORT_COUNT {
        return None;
      }
    }
    StrictlyAscending(sorted);
    r := Some(sorted);
  }

  lemma {:induction false} StrictlyAscending(ports: seq<nat>)
    requires forall j :: 0 < j < |ports| ==> ports[j - 1] < ports[j]
    ensures forall i, j :: 0 <= i < j < |ports| ==> ports[i] < ports[j]
  {
    if ports != [] {
      var before := ports[..|ports| - 1];
      StrictlyAscending(before);
      forall i, j | 0 <= i < j < |ports| ensures ports[i] < ports[j] {
        if j < |before| {
          assert before[i] < before[j];
        } else if i < |before| - 1 {
          assert before[i] < before[|before| - 1];
        }
      }
    }
  }

  lemma SameMembers(ports: seq<nat>)
    ensures forall p :: p in ports <==> p in Sort(ports)
    ensures Distinct(ports) <==> Distinct(Sort(ports))
  {
    SortSorts(ports);
    OnceEach(ports);
    OnceEach(Sort(ports));
    forall p ensures p in ports <==> p in Sort(ports) {
      assert p in multiset(ports) <==> p in multiset(Sort(ports));
    }
  }

  /** The ports are accepted exactly when they are distinct and in range, in whatever order. */
  lemma PortsAccepted(ports: seq<nat>)
    ensures ValidPorts(Sort(ports)) <==> Distinct(ports) && forall p :: p in ports ==> p < MAX_PORT_COUNT
  {
    SortSorts(ports);
    SameMembers(ports);
    hide Sort;
    var sorted := Sort(ports);
    if forall p :: p in ports ==> p < MAX_PORT_COUNT {
      assert forall i :: 0 <= i < |sorted| ==> sorted[i] in ports;
    }
  }

  lemma {:induction false} OnceEach(ports: seq<nat>)
    ensures Distinct(ports) <==> forall p: nat :: multiset(ports)[p] <= 1
    decreases |ports|
  {
    if ports != [] {
      var before, last := ports[..|ports| - 1], ports[|ports| - 1];
      OnceEach(before);
      assert ports == before + [last];
      assert multiset(ports)[last] == multiset(before)[last] + 1;
      if Distinct(ports) {
        assert last !in before;
      } else if Distinct(before) {
        assert last in before;
        assert multiset(before)[last] >= 1;
      } else {
        var p :| multiset(before)[p] > 1;
        assert multiset(ports)[p] > 1;
      }
    }
  }

  // ---------------------------------------------------------------------------------------------
  // Records
  // ---------------------------------------------------------------------------------------------

  function Fields(c: ControllerConfig): seq<Field> {
    [Field("address", StringValue(c.address)), Field("profile", StringValue(ProfileName(c.profile))),
     Field("ports", ArrayValue(c.ports))]
  }

  const EXPECTED_FIELDS: seq<string> := ["address", "profile", "ports"]

  function PrintRecord(c: ControllerConfig): string {
    PrintObject(Fields(c))
  }

  /** The record of a line: exactly the expected fields, with values that can be normalised. */
  function ParseRecord(line: string): Option<ControllerConfig> {
    match ParseObject(line)
    case None => None
    case Some(fields) =>
      if !KnownFields(fields, EXPECTED_FIELDS) then None else RecordOf(fields)
  }

  function RecordOf(fields: seq<Field>): Option<ControllerConfig> {
    match (RequireString(fields, "address"), RequireString(fields, "profile"), RequireArray(fields, "ports"))
    case (Some(address), Some(profile), Some(ports)) => MakeConfig(address, profile, ports)
    case _ => None
  }

  function MakeConfig(address: string, profile: string, ports: seq<nat>): Option<ControllerConfig> {
    if NormalizeAddress(address).None? || ParseProfile(profile).None? || !PortsOk(ports) then None
    else Some(ControllerConfig(NormalizeAddress(address).value, ParseProfile(profile).value, Sort(ports)))
  }

  predicate PortsOk(ports: seq<nat>)
    ensures PortsOk(ports) <==> ValidPorts(Sort(ports))
  {
    var sorted := Sort(ports);
    && (forall i :: 0 <= i < |sorted| ==> sorted[i] < MAX_PORT_COUNT)
    && (forall i, j :: 0 <= i < j < |sorted| ==> sorted[i] < sorted[j])
  }

  ghost predicate ValidConfig(c: ControllerConfig) {
    Normalized(c.address) && ValidPorts(c.ports)
  }

  lemma RecordIsValid(line: string)
    ensures ParseRecord(line).Some? ==> ValidConfig(ParseRecord(line).value)
  {
    hide ParseObject, KnownFields, RequireString, RequireArray, Sort;
    if ParseObject(line).Some? && RequireString(ParseObject(line).value, "address").Some? {
      NormalizeIsCanonical(RequireString(ParseObject(line).value, "address").value);
    }
  }

  lemma FindsInThree(a: Field, b: Field, c: Field, key: string)
    requires a.key != b.key && a.key != c.key && b.key != c.key
    ensures FindField([a, b, c], key)
         == Ok(if key == a.key then Some(a.value) else if key == b.key then Some(b.value) else if key == c.key then Some(c.value) else None)
  {
    var three := [a, b, c];
    assert three[..2] == [a, b] && [a, b][..1] == [a] && [a][..0] == [];
    assert FindField([], key) == Ok(None);
    assert FindField([a], key) == Ok(if key == a.key then Some(a.value) else None);
    assert FindField([a, b], key) == Ok(if key == a.key then Some(a.value) else if key == b.key then Some(b.value) else None);
  }

  lemma FieldsFound(c: ControllerConfig)
    ensures RequireString(Fields(c), "address") == Some(c.address)
    ensures RequireString(Fields(c), "profile") == Some(ProfileName(c.profile))
    ensures RequireArray(Fields(c), "ports") == Some(c.ports)
    ensures KnownFields(Fields(c), EXPECTED_FIELDS)
  {
    hide FindField, ProfileName;
    var f := Fields(c);
    FindsInThree(f[0], f[1], f[2], "address");
    FindsInThree(f[0], f[1], f[2], "profile");
    FindsInThree(f[0], f[1], f[2], "ports");
    assert f == [f[0], f[1], f[2]];
  }

  /** A valid record parses back from its line. */
  lemma RecordRoundTrip(c: ControllerConfig)
    requires ValidConfig(c)
    ensures ParseRecord(PrintRecord(c)) == Some(c)
  {
    hide ParseObject, PrintObject, RequireString, RequireArray, KnownFields, Fields, MakeConfig, Printable;
    PrintableFields(c);
    ObjectRoundTrip(Fields(c));
    FieldsFound(c);
    MakesItself(c);
  }

  lemma MakesItself(c: ControllerConfig)
    requires ValidConfig(c)
    ensures MakeConfig(c.address, ProfileName(c.profile), c.ports) == Some(c)
  {
    hide NormalizeAddress, ParseProfile, ProfileName, PortsOk, Sort;
    NormalizeIsCanonical(c.address);
    ProfileRoundTrip(c.profile);
    SortedStays(c.ports);
  }

  lemma PrintableFields(c: ControllerConfig)
    requires ValidConfig(c)
    ensures forall i :: 0 <= i < |Fields(c)| ==> Printable(Fields(c)[i])
  {
  }

  // ---------------------------------------------------------------------------------------------
  // Lines
  // ---------------------------------------------------------------------------------------------

  function LineEnd(t: string): (n: nat)
    ensures n <= |t| && (forall i :: 0 <= i < n ==> t[i] != '\n') && (n < |t| ==> t[n] == '\n')
  {
    if t == [] || t[0] == '\n' then 0 else 1 + LineEnd(t[1..])
  }

  /** The lines of a text, as reading it line by line gives them. */
  function Lines(t: string): seq<string> {
    if t == [] then []
    else
      var n := LineEnd(t);
      if n == |t| then [t] else [t[..n]] + Lines(t[n + 1..])
  }

  ghost predicate Complete(t: string) {
    t == [] || t[|t| - 1] == '\n'
  }

  ghost predicate OneLine(t: string) {
    forall i :: 0 <= i < |t| ==> t[i] != '\n'
  }

  lemma FirstLine(t: string, s: string, rest: string)
    requires OneLine(s) && t == s + "\n" + rest
    ensures Lines(t) == [s] + Lines(rest)
  {
    var n := LineEnd(t);
    assert t[|s|] == '\n';
    assert n == |s| && t[..n] == s && t[n + 1..] == rest;
  }

  lemma {:induction false} LinesAppend(t: string, s: string)
    requires Complete(t) && OneLine(s)
    ensures Lines(t + s + "\n") == Lines(t) + [s]
    decreases |t|
  {
    hide Lines, LineEnd;
    if t == [] {
      FirstLine(t + s + "\n", s, "");
      NoLines();
    } else {
      var n := LineEnd(t);
      var line, rest := t[..n], t[n + 1..];
      assert t == line + "\n" + rest;
      FirstLine(t, line, rest);
      assert t + s + "\n" == line + "\n" + (rest + s + "\n");
      FirstLine(t + s + "\n", line, rest + s + "\n");
      LinesAppend(rest, s);
    }
  }

  lemma NoLines()
    ensures Lines("") == []
  {
  }

  function StripReturn(line: string): string {
    if line != [] && line[|line| - 1] == '\r' then line[..|line| - 1] else line
  }

  predicate HasAddress(db: Db, address: string) {
    exists i :: 0 <= i < |db| && db[i].address == address
  }

  /** A line more of the database: nothing, or a record with a new address. */
  function AddLine(db: Db, line: string): Option<Db> {
    var text := StripReturn(line);
    if text == "" then Some(db)
    else
      match ParseRecord(text)
      case None => None
      case Some(c) => if HasAddress(db, c.address) then None else Some(db + [c])
  }

  function ParseLines(lines: seq<string>): Option<Db> {
    if lines == [] then Some([])
    else
      match ParseLines(lines[..|lines| - 1])
      case None => None
      case Some(db) => AddLine(db, lines[|lines| - 1])
  }

  function ParseDb(text: string): Option<Db> {
    ParseLines(Lines(text))
  }

  function Serialize(db: Db): string {
    if db == [] then "" else Serialize(db[..|db| - 1]) + PrintRecord(db[|db| - 1]) + "\n"
  }

  ghost predicate ValidDb(db: Db) {
    && (forall i :: 0 <= i < |db| ==> ValidConfig(db[i]))
    && (forall i, j :: 0 <= i < j < |db| ==> db[i].address != db[j].address)
  }

  // ---------------------------------------------------------------------------------------------
  // The database invariant and the round trip
  // ---------------------------------------------------------------------------------------------

  lemma AddLineKeepsValid(db: Db, line: string)
    requires ValidDb(db)
    ensures AddLine(db, line).Some? ==> ValidDb(AddLine(db, line).value)
  {
    hide ValidConfig, ParseRecord;
    RecordIsValid(StripReturn(line));
  }

  lemma {:induction false} ParsedLinesAreValid(lines: seq<string>)
    ensures ParseLines(lines).Some? ==> ValidDb(ParseLines(lines).value)
    decreases |lines|
  {
    hide AddLine, ValidDb;
    if lines == [] {
      EmptyIsValid();
    } else {
      ParsedLinesAreValid(lines[..|lines| - 1]);
      if ParseLines(lines[..|lines| - 1]).Some? {
        AddLineKeepsValid(ParseLines(lines[..|lines| - 1]).value, lines[|lines| - 1]);
      }
    }
  }

  lemma EmptyIsValid()
    ensures ValidDb([])
  {
  }

  /** Whatever the file says, a database that parses is valid. */
  lemma ParsedIsValid(text: string)
    ensures ParseDb(text).Some? ==> ValidDb(ParseDb(text).value)
  {
    ParsedLinesAreValid(Lines(text));
  }

  lemma SerializedIsComplete(db: Db)
    ensures Complete(Serialize(db))
  {
    hide PrintRecord;
  }

  ghost predicate Plain(t: string) {
    forall i :: 0 <= i < |t| ==> t[i] >= ' '
  }

  lemma PlainConcat(a: string, b: string)
    ensures Plain(a + b) <==> Plain(a) && Plain(b)
  {
    if Plain(a + b) {
      forall i | 0 <= i < |a| ensures a[i] >= ' ' {
        assert (a + b)[i] == a[i];
      }
      forall i | 0 <= i < |b| ensures b[i] >= ' ' {
        assert (a + b)[|a| + i] == b[i];
      }
    }
  }

  lemma {:induction false} JoinIsPlain(vs: seq<nat>)
    ensures Plain(Join(vs))
    decreases |vs|
  {
    hide ToString;
    if |vs| >= 2 {
      JoinIsPlain(vs[..|vs| - 1]);
      PlainConcat(Join(vs[..|vs| - 1]), ",");
      PlainConcat(Join(vs[..|vs| - 1]) + ",", ToString(vs[|vs| - 1]));
    }
  }

  lemma FieldIsPlain(f: Field)
    requires PlainKey(f.key)
    ensures Plain(PrintField(f))
  {
    hide Escape, Join;
    match f.value
    case StringValue(text) =>
      EscapedIsPlain(text);
      PlainConcat("\"", Escape(text));
      PlainConcat("\"" + Escape(text), "\"");
      assert Plain(PrintValue(f.value));
    case ArrayValue(numbers) =>
      JoinIsPlain(numbers);
      PlainConcat("[", Join(numbers));
      PlainConcat("[" + Join(numbers), "]");
      assert Plain(PrintValue(f.value));
  }

  lemma RecordIsOneLine(c: ControllerConfig)
    ensures OneLine(PrintRecord(c)) && StripReturn(PrintRecord(c)) == PrintRecord(c) && PrintRecord(c) != ""
  {
    var f := Fields(c);
    FieldIsPlain(f[0]);
    FieldIsPlain(f[1]);
    FieldIsPlain(f[2]);
    hide PrintField;
    PrintedThree(f[0], f[1], f[2]);
    assert f == [f[0], f[1], f[2]];
    hide PrintFields;
    PlainConcat(PrintField(f[1]) + ",", PrintField(f[2]));
    PlainConcat(PrintField(f[1]), ",");
    PlainConcat(PrintField(f[0]) + ",", PrintField(f[1]) + "," + PrintField(f[2]));
    PlainConcat(PrintField(f[0]), ",");
    PlainConcat("{", PrintFields(f));
    PlainConcat("{" + PrintFields(f), "}");
    var r := PrintRecord(c);
    assert r == ("{" + PrintFields(f)) + "}" && Plain(r);
    assert r != [] && r[|r| - 1] >= ' ';
  }

  lemma PrintedThree(a: Field, b: Field, c: Field)
    ensures PrintFields([a, b, c]) == (PrintField(a) + ",") + (PrintField(b) + "," + PrintField(c))
  {
    hide PrintField;
    assert [a, b, c][1..] == [b, c] && [b, c][1..] == [c];
    assert PrintFields([c]) == PrintField(c);
    assert PrintFields([b, c]) == PrintField(b) + "," + PrintFields([c]);
  }

  /** Parsing undoes serialising: every valid database comes back as it was. */
  lemma {:induction false} DbRoundTrip(db: Db)
    requires ValidDb(db)
    ensures ParseDb(Serialize(db)) == Some(db)
    decreases |db|
  {
    hide ParseRecord, PrintRecord, Lines, ValidConfig;
    if db == [] {
      NoLines();
    } else {
      var before, last := db[..|db| - 1], db[|db| - 1];
      DbRoundTrip(before);
      SerializedIsComplete(before);
      RecordIsOneLine(last);
      LinesAppend(Serialize(before), PrintRecord(last));
      RecordRoundTrip(last);
      assert Lines(Serialize(db)) == Lines(Serialize(before)) + [PrintRecord(last)];
      assert (Lines(Serialize(before)) + [PrintRecord(last)])[..|Lines(Serialize(before))|] == Lines(Serialize(before));
      assert !HasAddress(before, last.address);
      assert db == before + [last];
    }
  }

  /** Put a record in the place of the one with its address, or at the end. */
  function Replace(db: Db, c: ControllerConfig): Db {
    if db == [] then [c]
    else if db[0].address == c.address then [c] + db[1..]
    else [db[0]] + Replace(db[1..], c)
  }

  function Upsert(db: Db, c: ControllerConfig): Option<Db> {
    if NormalizeAddress(c.address).None? || !PortsOk(c.ports) then None
    else Some(Replace(db, ControllerConfig(NormalizeAddress(c.address).value, c.profile, Sort(c.ports))))
  }

  lemma {:induction false} ReplaceKeepsValid(db: Db, c: ControllerConfig)
    requires ValidDb(db) && ValidConfig(c)
    ensures ValidDb(Replace(db, c))
    ensures forall x :: x in Replace(db, c) <==> x == c || (x in db && x.address != c.address)
    decreases |db|
  {
    hide ValidConfig;
    if db != [] {
      if db[0].address == c.address {
        forall x ensures x in Replace(db, c) <==> x == c || (x in db && x.address != c.address) {
          if x in db[1..] {
            var i :| 0 <= i < |db[1..]| && db[1..][i] == x;
            assert db[i + 1] == x;
          }
        }
      } else {
        ReplaceKeepsValid(db[1..], c);
        var rest := Replace(db[1..], c);
        forall j | 0 <= j < |rest| ensures rest[j].address != db[0].address {
          assert rest[j] in rest;
          if rest[j] != c {
            var i :| 0 <= i < |db[1..]| && db[1..][i] == rest[j];
            assert db[i + 1] == rest[j];
          }
        }
      }
    }
  }

  /** An update keeps the database valid, and leaves exactly the new record for its address. */
  lemma UpsertKeepsValid(db: Db, c: ControllerConfig)
    requires ValidDb(db)
    ensures Upsert(db, c).Some? <==> IsAddress(c.address) && ValidPorts(Sort(c.ports))
    ensures Upsert(db, c).Some? ==>
              var stored := ControllerConfig(Lowered(c.address), c.profile, Sort(c.ports));
              && ValidDb(Upsert(db, c).value)
              && forall x :: x in Upsert(db, c).value <==> x == stored || (x in db && x.address != stored.address)
  {
    hide Sort, Replace;
    NormalizeIsCanonical(c.address);
    if Upsert(db, c).Some? {
      ReplaceKeepsValid(db, ControllerConfig(Lowered(c.address), c.profile, Sort(c.ports)));
    }
  }

  /** Records of other addresses, in their order. */
  function Others(db: Db, address: string): Db {
    if db == [] then []
    else Others(db[..|db| - 1], address) + if db[|db| - 1].address == address then [] else [db[|db| - 1]]
  }

  lemma NoOthers(db: Db, address: string)
    ensures Others(db[..0], address) == []
  {
  }

  lemma OthersStep(db: Db, i: nat, address: string)
    requires i < |db|
    ensures Others(db[..i + 1], address) == Others(db[..i], address) + if db[i].address == address then [] else [db[i]]
  {
    assert db[..i + 1][..i] == db[..i];
  }

  lemma {:induction false} OthersKeepValid(db: Db, address: string)
    requires ValidDb(db)
    ensures ValidDb(Others(db, address))
    ensures forall x :: x in Others(db, address) <==> x in db && x.address != address
    ensures |Others(db, address)| == |db| - if HasAddress(db, address) then 1 else 0
    decreases |db|
  {
    hide ValidConfig, HasAddress, ValidDb;
    AddressesGrow(db, address);
    if db != [] {
      var before, last := db[..|db| - 1], db[|db| - 1];
      LastRecord(db);
      OthersKeepValid(before, address);
      assert db == before + [last];
      var rest := Others(before, address);
      forall x | x in rest ensures x.address != last.address {
        assert x in before;
      }
      OneMoreRecord(rest, last);
      assert rest + [] == rest;
    } else {
      assert Others(db, address) == db;
    }
  }

  /** The last record of a valid database is valid and has an address of its own. */
  lemma LastRecord(db: Db)
    requires ValidDb(db) && db != []
    ensures ValidDb(db[..|db| - 1]) && ValidConfig(db[|db| - 1])
    ensures forall x :: x in db[..|db| - 1] ==> x.address != db[|db| - 1].address
  {
    hide ValidConfig;
  }

  lemma OneMoreRecord(db: Db, c: ControllerConfig)
    requires ValidDb(db) && ValidConfig(c) && forall x :: x in db ==> x.address != c.address
    ensures ValidDb(db + [c])
  {
    hide ValidConfig;
    assert forall j :: 0 <= j < |db| ==> db[j] in db;
  }

  lemma AddressesGrow(db: Db, address: string)
    ensures db == [] ==> !HasAddress(db, address)
    ensures db != [] ==>
              (HasAddress(db, address) <==> HasAddress(db[..|db| - 1], address) || db[|db| - 1].address == address)
    ensures ValidDb(db) && db != [] && db[|db| - 1].address == address ==> !HasAddress(db[..|db| - 1], address)
  {
    hide ValidConfig;
    if db != [] && HasAddress(db[..|db| - 1], address) {
      var i :| 0 <= i < |db| - 1 && db[..|db| - 1][i].address == address;
      assert db[i].address == address;
    }
  }

  // ---------------------------------------------------------------------------------------------
  // The database in its own form
  // ---------------------------------------------------------------------------------------------

  method SerializeConfigDb(db: Db) returns (text: string)
    ensures text == Serialize(db)
  {
    hide PrintRecord;
    text := "";
    for i := 0 to |db|
      invariant text == Serialize(db[..i])
    {
      assert db[..i + 1][..i] == db[..i];
      text := text + PrintRecord(db[i]) + "\n";
    }
    assert db[..|db|] == db;
  }

  class ConfigDatabase {
    var controllers: Db

    ghost predicate Valid()
      reads this
    {
      ValidDb(controllers)
    }

    constructor ()
      ensures Valid() && controllers == []
    {
      controllers := [];
    }

    /** Read the database from its text; a text that is refused leaves it as it was. */
    method Load(text: string) returns (loaded: bool)
      requires Valid()
      modifies this
      ensures Valid() && loaded == ParseDb(text).Some?
      ensures controllers == if loaded then ParseDb(text).value else old(controllers)
    {
      hide ParseRecord, ValidDb, Lines;
      var lines := Lines(text);
      var db: Db := [];
      for i := 0 to |lines|
        invariant ParseLines(lines[..i]) == Some(db)
      {
        assert lines[..i + 1][..i] == lines[..i];
        var added := AddLine(db, lines[i]);
        if added.None? {
          ParseStops(lines, i + 1);
          return false;
        }
        db := added.value;
      }
      assert lines[..|lines|] == lines;
      ParsedIsValid(text);
      controllers := db;
      loaded := true;
    }

    method StoreConfig(stored: ControllerConfig)
      modifies this
      ensures controllers == Replace(old(controllers), stored)
    {
      var i := 0;
      while i < |controllers| && controllers[i].address != stored.address
        invariant i <= |controllers| && controllers == old(controllers)
        invariant Replace(controllers, stored) == controllers[..i] + Replace(controllers[i..], stored)
      {
        assert controllers[i..][1..] == controllers[i + 1..];
        assert controllers[..i] + ([controllers[i]] + Replace(controllers[i + 1..], stored))
            == controllers[..i + 1] + Replace(controllers[i + 1..], stored);
        i := i + 1;
      }
      if i < |controllers| {
        assert controllers[i..][1..] == controllers[i + 1..];
        assert controllers[i := stored] == controllers[..i] + ([stored] + controllers[i + 1..]);
        controllers := controllers[i := stored];
      } else {
        assert controllers[i..] == [] && controllers[..i] == controllers;
        controllers := controllers + [stored];
      }
    }

    method UpsertControllerConfig(c: ControllerConfig) returns (done: bool)
      requires Valid()
      modifies this
      ensures Valid() && done == Upsert(old(controllers), c).Some?
      ensures controllers == if done then Upsert(old(controllers), c).value else old(controllers)
    {
      hide ValidDb, Sort, Replace, IsAddress;
      UpsertKeepsValid(controllers, c);
      var address := NormalizeBluetoothAddress(c.address);
      var ports := ValidatePorts(c.ports);
      done := address.Some? && ports.Some?;
      if done {
        StoreConfig(ControllerConfig(address.value, c.profile, ports.value));
      }
    }

    method RemoveControllerConfig(address: string) returns (removed: Option<bool>)
      requires Valid()
      modifies this
      ensures Valid() && (removed.Some? <==> IsAddress(address))
      ensures removed.Some? ==>
                && controllers == Others(old(controllers), Lowered(address))
                && removed.value == HasAddress(old(controllers), Lowered(address))
      ensures removed.None? ==> controllers == old(controllers)
    {
      hide ValidDb, HasAddress, IsAddress, Others;
      var normalized := NormalizeBluetoothAddress(address);
      if normalized.None? {
        return None;
      }
      OthersKeepValid(controllers, normalized.value);
      NoOthers(controllers, normalized.value);
      var kept: Db := [];
      for i := 0 to |controllers|
        invariant controllers == old(controllers)
        invariant kept == Others(controllers[..i], normalized.value)
      {
        OthersStep(controllers, i, normalized.value);
        if controllers[i].address != normalized.value {
          kept := kept + [controllers[i]];
        }
      }
      assert controllers[..|controllers|] == controllers;
      removed := Some(|kept| != |controllers|);
      controllers := kept;
    }
  }

  /** A text refused at one line is refused. */
  lemma {:induction false} ParseStops(lines: seq<string>, i: nat)
    requires i <= |lines| && ParseLines(lines[..i]).None?
    ensures ParseLines(lines).None?
    decreases |lines|
  {
    hide AddLine;
    if i < |lines| {
      assert lines[..|lines| - 1][..i] == lines[..i];
      ParseStops(lines[..|lines| - 1], i);
    } else {
      assert lines[..i] == lines;
    }
  }
}
