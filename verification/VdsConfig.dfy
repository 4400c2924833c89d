/** Controller configuration records and the choice of a virtual port (src/vds_config.cc). */
module VdsConfig {
  import opened VdsTypes

  const MAX_PORT_COUNT: nat := 4

  datatype Profile = Unspecified | Ds5 | Dse

  /** No ports means every port. */
  datatype ControllerConfig = ControllerConfig(address: string, profile: Profile, ports: seq<nat>)

  predicate IsDigit(c: char) {
    '0' <= c <= '9'
  }

  predicate IsDecimal(text: string) {
    text != [] && forall i :: 0 <= i < |text| ==> IsDigit(text[i])
  }

  function DigitValue(c: char): nat
    requires IsDigit(c)
  {
    (c as int) - ('0' as int)
  }

  function DecimalValue(text: string): nat
    requires forall i :: 0 <= i < |text| ==> IsDigit(text[i])
  {
    if text == [] then 0 else DecimalValue(text[..|text| - 1]) * 10 + DigitValue(text[|text| - 1])
  }

  /** What stands before the port's number in a device path: one form on Linux, three on Windows. */
  function Prefixes(windows: bool): seq<string> {
    if windows then ["\\\\.\\vds", "\\\\?\\vds", "vds"] else ["/dev/vds"]
  }

  /** What follows the first prefix that fits. */
  function PortText(path: string, prefixes: seq<string>): Option<string> {
    if prefixes == [] then None
    else if prefixes[0] <= path then Some(path[|prefixes[0]|..])
    else PortText(path, prefixes[1..])
  }

  function PortNamed(text: string): Option<nat> {
    if IsDecimal(text) && DecimalValue(text) < MAX_PORT_COUNT then Some(DecimalValue(text)) else None
  }

  /** The port a device path names. */
  function PortIndexOn(path: string, windows: bool): Option<nat> {
    match PortText(path, Prefixes(windows))
    case None => None
    case Some(text) => PortNamed(text)
  }

  function PortIndex(path: string): Option<nat> {
    PortIndexOn(path, false)
  }

  lemma {:induction false} ValueGrows(text: string, i: nat)
    requires i <= |text| && forall k :: 0 <= k < |text| ==> IsDigit(text[k])
    ensures DecimalValue(text[..i]) <= DecimalValue(text)
    decreases |text|
  {
    if i < |text| {
      ValueGrows(text[..|text| - 1], i);
      assert text[..|text| - 1][..i] == text[..i];
    } else {
      assert text[..i] == text;
    }
  }

  /** The search gives up on the first digit that takes the number out of range. */
  method PortIndexFromPath(path: string, windows: bool) returns (index: Option<nat>)
    ensures index == PortIndexOn(path, windows)
    ensures !windows ==> index == PortIndex(path)
  {
    var prefixes := Prefixes(windows);
    hide Prefixes;
    var n := 0;
    while n < |prefixes| && !(prefixes[n] <= path)
      invariant n <= |prefixes| && PortText(path, prefixes[n..]) == PortText(path, prefixes)
    {
      n := n + 1;
    }
    if n == |prefixes| {
      return None;
    }
    var text := path[|prefixes[n]|..];
    if !IsDecimal(text) {
      return None;
    }
    var value := 0;
    for i := 0 to |text|
      invariant value == DecimalValue(text[..i]) && (i > 0 ==> value < MAX_PORT_COUNT)
    {
      assert text[..i + 1][..i] == text[..i];
      value := value * 10 + DigitValue(text[i]);
      if value >= MAX_PORT_COUNT {
        ValueGrows(text, i + 1);
        return None;
      }
    }
    assert text[..|text|] == text;
    index := Some(value);
  }

  predicate AllowsPort(config: ControllerConfig, port: nat) {
    config.ports == [] || port in config.ports
  }

  predicate AllowsPath(config: ControllerConfig, path: string) {
    PortIndex(path).Some? && AllowsPort(config, PortIndex(path).value)
  }

  /** The ports a configuration asks for, in its order of preference. */
  function PortTargets(config: ControllerConfig): seq<nat> {
    if config.ports != [] then config.ports else [0, 1, 2, 3]
  }

  /** `port` is the configuration's first choice among the present and free ports. */
  ghost predicate FirstChoice(config: ControllerConfig, candidates: seq<nat>, occupied: seq<nat>, choice: Option<nat>) {
    var targets := PortTargets(config);
    match choice
    case None => forall p :: p in targets && p in candidates ==> p in occupied
    case Some(port) =>
      port in candidates && port !in occupied
      && exists i :: 0 <= i < |targets| && targets[i] == port
                     && forall j :: 0 <= j < i ==> targets[j] !in candidates || targets[j] in occupied
  }

  method SelectPort(config: ControllerConfig, candidates: seq<nat>, occupied: seq<nat>) returns (choice: Option<nat>)
    ensures FirstChoice(config, candidates, occupied, choice)
  {
    var targets := PortTargets(config);
    for i := 0 to |targets|
      invariant forall j :: 0 <= j < i ==> targets[j] !in candidates || targets[j] in occupied
    {
      if targets[i] in candidates && targets[i] !in occupied {
        return Some(targets[i]);
      }
    }
    choice := None;
  }

  /** There is at most one first choice. */
  lemma FirstChoiceUnique(config: ControllerConfig, candidates: seq<nat>, occupied: seq<nat>, a: Option<nat>, b: Option<nat>)
    requires FirstChoice(config, candidates, occupied, a) && FirstChoice(config, candidates, occupied, b)
    ensures a == b
  {
    var targets := PortTargets(config);
    match (a, b)
    case (Some(x), Some(y)) =>
      var i :| 0 <= i < |targets| && targets[i] == x && forall j :: 0 <= j < i ==> targets[j] !in candidates || targets[j] in occupied;
      var k :| 0 <= k < |targets| && targets[k] == y && forall j :: 0 <= j < k ==> targets[j] !in candidates || targets[j] in occupied;
    case _ =>
  }

  /** Whatever is chosen is allowed, and is a port that exists if the candidates are. */
  lemma ChoiceAllowed(config: ControllerConfig, candidates: seq<nat>, occupied: seq<nat>, port: nat)
    requires FirstChoice(config, candidates, occupied, Some(port))
    ensures AllowsPort(config, port)
  {
  }

  /** The choice in plain terms: the first port of the configuration's list that is a candidate and free, or
      the lowest such of 0 to 3 if it has no list; none only if there is none. */
  lemma ChoiceIsPreferred(config: ControllerConfig, candidates: seq<nat>, occupied: seq<nat>, choice: Option<nat>)
    requires FirstChoice(config, candidates, occupied, choice)
    ensures choice.Some? ==> choice.value in candidates && choice.value !in occupied
    ensures choice.Some? && config.ports == [] ==>
              choice.value < 4 && forall p: nat :: p < choice.value && p in candidates ==> p in occupied
    ensures choice.Some? && config.ports != [] ==>
              exists i :: 0 <= i < |config.ports| && config.ports[i] == choice.value
                          && forall j :: 0 <= j < i && config.ports[j] in candidates ==> config.ports[j] in occupied
    ensures choice.None? ==>
              forall p: nat :: p in candidates && (if config.ports == [] then p < 4 else p in config.ports) ==> p in occupied
  {
    var targets := PortTargets(config);
    if config.ports == [] {
      assert forall p: nat :: p < 4 ==> targets[p] == p;
      if choice.Some? {
        forall p: nat | p < choice.value && p in candidates ensures p in occupied {
          assert targets[p] == p;
        }
      }
    }
  }

  function Zeros(n: nat): (r: string)
    ensures |r| == n && forall i :: 0 <= i < n ==> r[i] == '0'
  {
    seq(n, _ => '0')
  }

  function DigitOf(p: nat): char
    requires p < 4
  {
    ['0', '1', '2', '3'][p]
  }

  /** A number below 4, with leading zeros or without. */
  ghost predicate Spells(text: string, p: nat) {
    p < 4 && text != [] && text == Zeros(|text| - 1) + [DigitOf(p)]
  }

  lemma {:induction false} ValueOfZeros(text: string)
    requires forall i :: 0 <= i < |text| ==> IsDigit(text[i])
    ensures DecimalValue(text) == 0 <==> text == Zeros(|text|)
  {
    if text != [] {
      var before, last := text[..|text| - 1], text[|text| - 1];
      ValueOfZeros(before);
      assert text == before + [last];
      if text == Zeros(|text|) {
        assert before == Zeros(|before|);
      }
      if DecimalValue(text) == 0 {
        assert before == Zeros(|before|) && last == '0';
      }
    }
  }

  lemma NamedExactly(text: string, p: nat)
    ensures PortNamed(text) == Some(p) <==> Spells(text, p)
  {
    if text != [] {
      var before, last := text[..|text| - 1], text[|text| - 1];
      assert text == before + [last];
      if IsDecimal(text) {
        ValueOfZeros(before);
        if PortNamed(text) == Some(p) {
          assert DecimalValue(before) == 0;
        }
      }
      if Spells(text, p) {
        assert before == Zeros(|before|) && last == DigitOf(p);
        ValueOfZeros(before);
      }
    }
  }

  /** The device paths that name port `p`: on Linux "/dev/vds" and its number, on Windows the number after one of
      three prefixes; no others. */
  lemma PathNamesExactly(path: string, windows: bool, p: nat)
    ensures PortIndexOn(path, windows) == Some(p)
       <==> exists prefix :: prefix in (if windows then {"\\\\.\\vds", "\\\\?\\vds", "vds"} else {"/dev/vds"})
                             && prefix <= path && Spells(path[|prefix|..], p)
  {
    hide Spells, PortNamed;
    if windows {
      NamedAfter(path, "\\\\.\\vds", p);
      NamedAfter(path, "\\\\?\\vds", p);
      NamedAfter(path, "vds", p);
      assert "vds" <= path ==> path[0] == 'v';
      assert "\\\\.\\vds" <= path ==> path[0] == '\\' && path[2] == '.';
      assert "\\\\?\\vds" <= path ==> path[0] == '\\' && path[2] == '?';
      PathByPrefix(path, p);
    } else {
      NamedAfter(path, "/dev/vds", p);
      assert ["/dev/vds"][1..] == [];
      assert PortText(path, []) == None;
    }
  }

  lemma PathByPrefix(path: string, p: nat)
    ensures var dos, nt, short := "\\\\.\\vds", "\\\\?\\vds", "vds";
            var text := if dos <= path then Some(path[|dos|..]) else if nt <= path then Some(path[|nt|..])
                        else if short <= path then Some(path[|short|..]) else None;
            PortText(path, Prefixes(true)) == text
  {
    var prefixes := Prefixes(true);
    assert prefixes[1..] == ["\\\\?\\vds", "vds"] && prefixes[1..][1..] == ["vds"] && ["vds"][1..] == [];
    assert PortText(path, []) == None;
    assert PortText(path, ["vds"]) == if "vds" <= path then Some(path[3..]) else None;
  }

  lemma NamedAfter(path: string, prefix: string, p: nat)
    ensures prefix <= path ==> (PortNamed(path[|prefix|..]) == Some(p) <==> Spells(path[|prefix|..], p))
  {
    if prefix <= path {
      NamedExactly(path[|prefix|..], p);
    }
  }
}
