/** Passing PCI devices through to a virtual machine: the option text and the loop
    that brings the configured devices in line (pkg/proxmox/virtualmachine.go). */
module Pci {
  import opened Wrappers
  import opened Text

  datatype PciDevice = PciDevice(kind: string, deviceId: string, pcie: bool, primaryGpu: bool)

  const MAPPING: string := "mapping="

  // ------------------------------------------------------------------ the text

  function Options(pci: PciDevice): seq<string> {
    [if pci.kind == "mapped" then MAPPING + pci.deviceId else pci.deviceId]
    + (if pci.pcie then ["pcie=1"] else [])
    + (if pci.primaryGpu then ["x-vga=1"] else [])
  }

  function BuildPCIOptions(pci: PciDevice): string {
    Join(Options(pci), ',')
  }

  function ParseId(first: string): PciDevice {
    if MAPPING <= first then PciDevice("mapped", first[|MAPPING|..], false, false)
    else PciDevice("raw", first, false, false)
  }

  function ParseOption(pci: PciDevice, option: string): Option<PciDevice> {
    var (key, value) := Cut(option, '=');
    if value.None? then None
    else if key == "pcie" then Some(pci.(pcie := true))
    else if key == "x-vga" then Some(pci.(primaryGpu := true))
    else Some(pci)
  }

  function ParseOptions(pci: PciDevice, options: seq<string>): Option<PciDevice> {
    if options == [] then Some(pci)
    else match ParseOptions(pci, options[..|options| - 1])
      case None => None
      case Some(p) => ParseOption(p, options[|options| - 1])
  }

  function Parse(text: string): Option<PciDevice> {
    var pieces := Split(text, ',');
    ParseOptions(ParseId(pieces[0]), pieces[1..])
  }

  lemma {:induction false} FailsForGood(pci: PciDevice, options: seq<string>, n: nat)
    requires n <= |options| && ParseOptions(pci, options[..n]).None?
    ensures ParseOptions(pci, options).None?
  {
    if n < |options| {
      assert options[..|options| - 1][..n] == options[..n];
      FailsForGood(pci, options[..|options| - 1], n);
    } else {
      assert options[..n] == options;
    }
  }

  method ParseSinglePCIConfiguration(text: string) returns (r: Option<PciDevice>)
    ensures r == Parse(text)
  {
    var pieces := Split(text, ',');
    var config := ParseId(pieces[0]);
    var options := pieces[1..];
    for i := 0 to |options|
      invariant ParseOptions(ParseId(pieces[0]), options[..i]) == Some(config)
    {
      assert options[..i + 1][..i] == options[..i];
      var next := ParseOption(config, options[i]);
      if next.None? {
        FailsForGood(ParseId(pieces[0]), options, i + 1);
        return None;
      }
      config := next.value;
    }
    assert options[..|options|] == options;
    r := Some(config);
  }

  lemma JoinMore(first: string, rest: seq<string>)
    requires rest != []
    ensures Join([first] + rest, ',') == first + "," + Join(rest, ',')
  {
    assert ([first] + rest)[1..] == rest;
  }

  /** The text: the id, and a flag for each option that is on. */
  lemma TextIs(pci: PciDevice)
    ensures BuildPCIOptions(pci) ==
      (if pci.kind == "mapped" then "mapping=" + pci.deviceId else pci.deviceId)
      + (if pci.pcie then ",pcie=1" else "") + (if pci.primaryGpu then ",x-vga=1" else "")
  {
    var id := if pci.kind == "mapped" then "mapping=" + pci.deviceId else pci.deviceId;
    assert Join([id], ',') == id;
    if pci.pcie && pci.primaryGpu {
      JoinMore("pcie=1", ["x-vga=1"]);
      JoinMore(id, ["pcie=1"] + ["x-vga=1"]);
      assert Options(pci) == [id] + (["pcie=1"] + ["x-vga=1"]);
    } else if pci.pcie {
      JoinMore(id, ["pcie=1"]);
      assert Options(pci) == [id] + ["pcie=1"];
    } else if pci.primaryGpu {
      JoinMore(id, ["x-vga=1"]);
      assert Options(pci) == [id] + ["x-vga=1"];
    } else {
      assert Options(pci) == [id];
    }
  }

  ghost predicate AllAssign(options: seq<string>) {
    forall i :: 0 <= i < |options| ==> '=' in options[i]
  }

  ghost predicate HasOption(options: seq<string>, key: string) {
    exists i :: 0 <= i < |options| && key + "=" <= options[i]
  }

  lemma {:induction false} CutKey(s: string, key: string)
    requires '=' !in key
    ensures (Cut(s, '=').0 == key && Cut(s, '=').1.Some?) <==> key + "=" <= s
    ensures Cut(s, '=').1.Some? <==> '=' in s
  {
    if s == [] {
    } else if s[0] == '=' {
      assert key != [] ==> (key + "=")[0] == key[0];
    } else {
      CutRest(s[1..]);
      if key != [] && key[0] == s[0] {
        CutKey(s[1..], key[1..]);
        assert (key + "=")[1..] == key[1..] + "=";
        assert key + "=" <= s <==> key[1..] + "=" <= s[1..] by {
          assert s == [s[0]] + s[1..] && key + "=" == [key[0]] + (key[1..] + "=");
        }
        assert key == [key[0]] + key[1..];
      } else {
        assert (key + "=")[0] == if key == [] then '=' else key[0];
      }
    }
  }

  lemma {:induction false} CutRest(s: string)
    ensures Cut(s, '=').1.Some? <==> '=' in s
  {
    if s != [] && s[0] != '=' {
      CutRest(s[1..]);
    }
  }

  /** A text is read exactly when every option after the id has a "="; the flags are on
      exactly when their options are there, whatever their values. */
  lemma {:induction false} OptionsReadExactly(pci: PciDevice, options: seq<string>)
    ensures
      var r := ParseOptions(pci, options);
      && (r.Some? <==> AllAssign(options))
      && (r.Some? ==> r.value == pci.(pcie := pci.pcie || HasOption(options, "pcie"),
                                       primaryGpu := pci.primaryGpu || HasOption(options, "x-vga")))
  {
    if options != [] {
      var last, rest := options[|options| - 1], options[..|options| - 1];
      OptionsReadExactly(pci, rest);
      CutKey(last, "pcie");
      CutKey(last, "x-vga");
      LastOption(options, "pcie");
      LastOption(options, "x-vga");
    }
  }

  lemma LastOption(options: seq<string>, key: string)
    requires options != []
    ensures HasOption(options, key) <==>
      HasOption(options[..|options| - 1], key) || key + "=" <= options[|options| - 1]
  {
    var rest := options[..|options| - 1];
    if i :| 0 <= i < |rest| && key + "=" <= rest[i] {
      assert options[i] == rest[i];
    }
    if i :| 0 <= i < |options| && key + "=" <= options[i] {
      assert i < |rest| ==> rest[i] == options[i];
    }
  }

  lemma ReadsExactly(text: string)
    ensures
      var first, options, r := Split(text, ',')[0], Split(text, ',')[1..], Parse(text);
      && (r.Some? <==> AllAssign(options))
      && (r.Some? ==>
            && r.value.pcie == HasOption(options, "pcie") && r.value.primaryGpu == HasOption(options, "x-vga")
            && if "mapping=" <= first then r.value.kind == "mapped" && "mapping=" + r.value.deviceId == first
               else r.value.kind == "raw" && r.value.deviceId == first)
  {
    var pieces := Split(text, ',');
    OptionsReadExactly(ParseId(pieces[0]), pieces[1..]);
    assert |MAPPING| == 8 && MAPPING == "mapping=";
    assert MAPPING <= pieces[0] ==> pieces[0] == MAPPING + pieces[0][8..];
  }

  /** The devices whose text reads back as themselves. */
  predicate Writable(pci: PciDevice) {
    ',' !in pci.deviceId && (pci.kind == "mapped" || (pci.kind == "raw" && !(MAPPING <= pci.deviceId)))
  }

  lemma {:induction false} OptionsKeepId(pci: PciDevice, options: seq<string>)
    ensures var r := ParseOptions(pci, options);
      r.Some? ==> r.value.kind == pci.kind && r.value.deviceId == pci.deviceId
  {
    if options != [] {
      OptionsKeepId(pci, options[..|options| - 1]);
    }
  }

  /** Nothing else is ever read. */
  lemma ParsedIsWritable(text: string)
    requires Parse(text).Some?
    ensures Writable(Parse(text).value)
  {
    var pieces := Split(text, ',');
    OptionsKeepId(ParseId(pieces[0]), pieces[1..]);
    assert pieces[0] in pieces;
    assert forall c :: c in pieces[0][..] ==> c in pieces[0];
  }

  lemma OptionsReadBack(pci: PciDevice)
    ensures ParseOption(pci, "pcie=1") == Some(pci.(pcie := true))
    ensures ParseOption(pci, "x-vga=1") == Some(pci.(primaryGpu := true))
  {
    CutAt("pcie", "1", '=');
    CutAt("x-vga", "1", '=');
    assert "pcie" + (['='] + "1") == "pcie=1" && "x-vga" + (['='] + "1") == "x-vga=1";
  }

  lemma OneMoreOption(pci: PciDevice, options: seq<string>, option: string)
    requires ParseOptions(pci, options).Some?
    ensures ParseOptions(pci, options + [option]) == ParseOption(ParseOptions(pci, options).value, option)
  {
    assert (options + [option])[..|options|] == options;
  }

  lemma FlagsReadBack(base: PciDevice, pcie: bool, primaryGpu: bool)
    requires !base.pcie && !base.primaryGpu
    ensures ParseOptions(base, (if pcie then ["pcie=1"] else []) + (if primaryGpu then ["x-vga=1"] else []))
         == Some(base.(pcie := pcie, primaryGpu := primaryGpu))
  {
    var first := if pcie then ["pcie=1"] else [];
    assert ParseOptions(base, first) == Some(base.(pcie := pcie)) by {
      OptionsReadBack(base);
      OneMoreOption(base, [], "pcie=1");
      assert [] + ["pcie=1"] == ["pcie=1"];
    }
    if primaryGpu {
      OptionsReadBack(base.(pcie := pcie));
      OneMoreOption(base, first, "x-vga=1");
    } else {
      assert first + [] == first;
    }
  }

  lemma WritableReadsBack(pci: PciDevice)
    requires Writable(pci)
    ensures Parse(BuildPCIOptions(pci)) == Some(pci)
  {
    var options := Options(pci);
    assert forall t :: t in options ==> ',' !in t;
    SplitJoin(options, ',');
    assert (MAPPING + pci.deviceId)[|MAPPING|..] == pci.deviceId;
    assert options[1..] == (if pci.pcie then ["pcie=1"] else []) + (if pci.primaryGpu then ["x-vga=1"] else []);
    FlagsReadBack(ParseId(options[0]), pci.pcie, pci.primaryGpu);
  }

  /** A device reads back from its own text exactly when it is writable. */
  lemma ReadsBackExactly(pci: PciDevice)
    ensures Parse(BuildPCIOptions(pci)) == Some(pci) <==> Writable(pci)
  {
    if Writable(pci) {
      WritableReadsBack(pci);
    } else if Parse(BuildPCIOptions(pci)) == Some(pci) {
      ParsedIsWritable(BuildPCIOptions(pci));
    }
  }

  // ------------------------------------------------------------------ the loop

  function Index(i: nat): string {
    "hostpci" + Itoa(i)
  }

  /** The devices wanted, by option name. */
  function Want(desired: seq<PciDevice>): (r: map<string, PciDevice>) {
    if desired == [] then map[]
    else Want(desired[..|desired| - 1])[Index(|desired| - 1) := desired[|desired| - 1]]
  }

  lemma {:induction false} WantAt(desired: seq<PciDevice>, i: nat)
    ensures Index(i) in Want(desired) <==> i < |desired|
    ensures i < |desired| ==> Want(desired)[Index(i)] == desired[i]
  {
    if desired != [] {
      WantAt(desired[..|desired| - 1], i);
      if Index(i) == Index(|desired| - 1) {
        NumberedNamesDiffer("hostpci", i, |desired| - 1);
      }
    }
  }

  lemma {:induction false} WantedIsDesired(desired: seq<PciDevice>, k: string)
    requires k in Want(desired)
    ensures exists i :: 0 <= i < |desired| && k == Index(i) && Want(desired)[k] == desired[i]
  {
    if k == Index(|desired| - 1) {
      WantAt(desired, |desired| - 1);
    } else {
      WantedIsDesired(desired[..|desired| - 1], k);
    }
  }

  /** The configured devices whose text can be read. */
  function Parsed(texts: map<string, string>): map<string, PciDevice> {
    map k | k in texts && Parse(texts[k]).Some? :: Parse(texts[k]).value
  }

  /** Every wanted entry written unless it is there already. */
  function Updated(texts: map<string, string>, actual: map<string, PciDevice>, want: map<string, PciDevice>)
    : map<string, string>
    requires actual.Keys <= texts.Keys
  {
    map k | k in texts.Keys + want.Keys ::
      if k in want && !(k in actual && actual[k] == want[k]) then BuildPCIOptions(want[k]) else texts[k]
  }

  /** And the entries that were read but are not wanted removed. Entries whose text
      cannot be read stay unless overwritten. */
  function Target(texts: map<string, string>, actual: map<string, PciDevice>, want: map<string, PciDevice>)
    : map<string, string>
    requires actual.Keys <= texts.Keys
  {
    Updated(texts, actual, want) - (actual.Keys - want.Keys)
  }

  ghost predicate SameAt(m: map<string, string>, n: map<string, string>, k: string) {
    (k in m <==> k in n) && (k in m ==> m[k] == n[k])
  }

  lemma OneMoreDesired(desired: seq<PciDevice>, i: nat)
    requires i < |desired|
    ensures Want(desired[..i + 1]) == Want(desired[..i])[Index(i) := desired[i]] && Index(i) !in Want(desired[..i])
  {
    assert desired[..i + 1][..i] == desired[..i];
    WantAt(desired[..i], i);
  }

  lemma WantedSoFar(desired: seq<PciDevice>, n: nat, k: string)
    requires n <= |desired| && k in Want(desired[..n])
    ensures k in Want(desired) && Want(desired)[k] == Want(desired[..n])[k]
  {
    WantedIsDesired(desired[..n], k);
    var j :| 0 <= j < n && k == Index(j) && Want(desired[..n])[k] == desired[..n][j];
    WantAt(desired, j);
  }

  /** Some wanted entry is missing or different. */
  ghost predicate Differs(actual: map<string, PciDevice>, want: map<string, PciDevice>) {
    exists k :: k in want && !(k in actual && actual[k] == want[k])
  }

  lemma OneMoreWanted(texts: map<string, string>, actual: map<string, PciDevice>, want: map<string, PciDevice>,
                      k: string, pci: PciDevice)
    requires actual.Keys <= texts.Keys && k !in want
    ensures Updated(texts, actual, want[k := pci]) ==
      if k in actual && actual[k] == pci then Updated(texts, actual, want)
      else Updated(texts, actual, want)[k := BuildPCIOptions(pci)]
    ensures Differs(actual, want[k := pci]) <==> Differs(actual, want) || !(k in actual && actual[k] == pci)
  {
    var more := want[k := pci];
    if Differs(actual, want) {
      var j :| j in want && !(j in actual && actual[j] == want[j]);
      assert j in more && more[j] == want[j];
    }
    if !(k in actual && actual[k] == pci) {
      assert k in more && more[k] == pci;
    }
  }

  lemma UpdatedBetween(texts: map<string, string>, actual: map<string, PciDevice>, part: map<string, PciDevice>,
                       want: map<string, PciDevice>, k: string)
    requires actual.Keys <= texts.Keys && (k in part ==> k in want && want[k] == part[k])
    ensures SameAt(Updated(texts, actual, part), texts, k) ||
            SameAt(Updated(texts, actual, part), Updated(texts, actual, want), k)
  {
  }

  /** Stopping half-way leaves each entry as it was or as it is wanted. */
  lemma SomeWritten(texts: map<string, string>, actual: map<string, PciDevice>, desired: seq<PciDevice>,
                    done: nat, k: string)
    requires actual.Keys <= texts.Keys && done <= |desired|
    ensures
      var m := Updated(texts, actual, Want(desired[..done]));
      SameAt(m, texts, k) || SameAt(m, Updated(texts, actual, Want(desired)), k)
  {
    var part := Want(desired[..done]);
    if k in part {
      WantedSoFar(desired, done, k);
    }
    UpdatedBetween(texts, actual, part, Want(desired), k);
  }

  lemma HalfWritten(texts: map<string, string>, actual: map<string, PciDevice>, desired: seq<PciDevice>, done: nat)
    requires actual.Keys <= texts.Keys && done <= |desired|
    ensures
      var m := Updated(texts, actual, Want(desired[..done]));
      forall k :: SameAt(m, texts, k) || SameAt(m, Target(texts, actual, Want(desired)), k)
  {
    var m := Updated(texts, actual, Want(desired[..done]));
    forall k ensures SameAt(m, texts, k) || SameAt(m, Target(texts, actual, Want(desired)), k) {
      SomeWritten(texts, actual, desired, done, k);
    }
  }

  lemma EqualExactly(actual: map<string, PciDevice>, want: map<string, PciDevice>)
    ensures actual == want <==> !Differs(actual, want) && (actual - want.Keys).Keys == {}
  {
    if !Differs(actual, want) && (actual - want.Keys).Keys == {} {
      assert forall k :: k in want ==> k in actual && actual[k] == want[k];
      assert forall k :: k in actual && k !in want ==> k in (actual - want.Keys).Keys;
    }
  }

  /** The hostpci options of one virtual machine. */
  class VmConfig {
    var hostPci: map<string, string>
    var running: bool

    constructor (hostPci: map<string, string>, running: bool)
      ensures this.hostPci == hostPci && this.running == running
    {
      this.hostPci, this.running := hostPci, running;
    }

    method UpdatePCIConfig(index: string, pci: PciDevice, calls: string -> Reply) returns (ok: bool)
      modifies this`hostPci
      ensures ok <==> calls(index).Answered?
      ensures hostPci == if calls(index) == Lost(false) then old(hostPci)
                         else old(hostPci)[index := BuildPCIOptions(pci)]
    {
      ok := calls(index).Answered?;
      if calls(index) != Lost(false) {
        hostPci := hostPci[index := BuildPCIOptions(pci)];
      }
    }

    method DeleteOption(index: string, calls: string -> Reply) returns (ok: bool)
      modifies this`hostPci
      ensures ok <==> calls(index).Answered?
      ensures hostPci == if calls(index) == Lost(false) then old(hostPci) else old(hostPci) - {index}
    {
      ok := calls(index).Answered?;
      if calls(index) != Lost(false) {
        hostPci := hostPci - {index};
      }
    }

    /** Writes one wanted entry unless it is there already. `texts`: the configuration
        at the start, `want`: the entries already seen to. */
    method WriteOne(index: string, pci: PciDevice, left: map<string, PciDevice>, calls: string -> Reply,
                    ghost texts: map<string, string>, ghost actual: map<string, PciDevice>,
                    ghost want: map<string, PciDevice>)
      returns (r: Option<bool>, rest: map<string, PciDevice>)
      requires actual.Keys <= texts.Keys && index !in want && left == actual - want.Keys
      requires hostPci == Updated(texts, actual, want)
      modifies this`hostPci
      ensures hostPci == if r.None? && calls(index) == Lost(false) then Updated(texts, actual, want)
                         else Updated(texts, actual, want[index := pci])
      ensures r.Some? ==> (r.value || Differs(actual, want) <==> Differs(actual, want[index := pci]))
      ensures rest == actual - want[index := pci].Keys
      ensures calls(index).Answered? ==> r.Some?
    {
      rest := left - {index};
      assert want[index := pci].Keys == want.Keys + {index};
      OneMoreWanted(texts, actual, want, index, pci);
      if index in left && left[index] == pci {
        return Some(false), rest;
      }
      var ok := UpdatePCIConfig(index, pci, calls);
      r := if ok then Some(true) else None;
    }

    /** Writes what is missing or different; `left` are the entries not wanted. A
        failure stops it with `done` devices seen to. */
    method WriteDesired(desired: seq<PciDevice>, actual: map<string, PciDevice>, calls: string -> Reply)
      returns (r: Option<bool>, left: map<string, PciDevice>, ghost done: nat)
      requires actual.Keys <= hostPci.Keys
      modifies this`hostPci
      ensures done <= |desired| && (r.Some? ==> done == |desired|)
      ensures hostPci == Updated(old(hostPci), actual, Want(desired[..done]))
      ensures r.Some? ==> left == actual - Want(desired).Keys && (r.value <==> Differs(actual, Want(desired)))
      ensures (forall k :: calls(k).Answered?) ==> r.Some?
    {
      var reboot := false;
      ghost var want: map<string, PciDevice> := map[];
      left, done := actual, 0;
      assert Updated(hostPci, actual, want) == hostPci && actual - want.Keys == actual;
      for i := 0 to |desired|
        invariant done == i && want == Want(desired[..i]) && hostPci == Updated(old(hostPci), actual, want)
        invariant reboot <==> Differs(actual, want)
        invariant left == actual - want.Keys
      {
        OneMoreDesired(desired, i);
        var index := Index(i);
        var wrote, rest := WriteOne(index, desired[i], left, calls, old(hostPci), actual, want);
        if wrote.None? {
          return None, left, if calls(index) == Lost(false) then done else done + 1;
        }
        reboot := reboot || wrote.value;
        left := rest;
        want := want[index := desired[i]];
        done := done + 1;
      }
      assert desired[..|desired|] == desired;
      r := Some(reboot);
    }

    /** A failure stops it with the entries `gone` deleted. */
    method DeleteAll(indexes: set<string>, calls: string -> Reply) returns (ok: bool, ghost gone: set<string>)
      modifies this`hostPci
      ensures hostPci == old(hostPci) - gone && gone <= indexes && (ok ==> gone == indexes)
      ensures (forall k :: calls(k).Answered?) ==> ok
    {
      var todo := indexes;
      while todo != {}
        invariant todo <= indexes && hostPci == old(hostPci) - (indexes - todo)
      {
        var index :| index in todo;
        ok := DeleteOption(index, calls);
        assert indexes - (todo - {index}) == (indexes - todo) + {index};
        if !ok {
          gone := indexes - if calls(index) == Lost(false) then todo else todo - {index};
          return;
        }
        todo := todo - {index};
      }
      assert indexes - {} == indexes;
      ok, gone := true, indexes;
    }

    /** Brings the options in line; a restart is asked for exactly when the devices
        that were read are not the desired ones. However far it gets, each entry is as
        it was or as it is to be. */
    method ApplyPCIChanges(desired: seq<PciDevice>, actual: map<string, PciDevice>, calls: string -> Reply)
      returns (r: Option<bool>)
      requires actual.Keys <= hostPci.Keys
      modifies this`hostPci
      ensures r.Some? ==> hostPci == Target(old(hostPci), actual, Want(desired))
      ensures r.Some? ==> (r.value <==> actual != Want(desired))
      ensures forall k ::
        SameAt(hostPci, old(hostPci), k) || SameAt(hostPci, Target(old(hostPci), actual, Want(desired)), k)
      ensures (forall k :: calls(k).Answered?) ==> r.Some?
    {
      var left;
      ghost var texts, done := hostPci, 0;
      r, left, done := WriteDesired(desired, actual, calls);
      if r.None? {
        HalfWritten(texts, actual, desired, done);
        return;
      }
      assert desired[..done] == desired;
      EqualExactly(actual, Want(desired));
      ghost var gone;
      var ok;
      ok, gone := DeleteAll(left.Keys, calls);
      assert left.Keys == actual.Keys - Want(desired).Keys;
      if !ok {
        return None;
      }
      r := Some(r.value || left.Keys != {});
    }

    method ReadDevices() returns (actual: map<string, PciDevice>)
      ensures actual == Parsed(hostPci)
    {
      actual := map[];
      var todo := hostPci.Keys;
      while todo != {}
        invariant todo <= hostPci.Keys
        invariant forall k :: k in actual <==> k in hostPci && k !in todo && Parse(hostPci[k]).Some?
        invariant forall k :: k in actual ==> actual[k] == Parse(hostPci[k]).value
      {
        var k :| k in todo;
        var pci := ParseSinglePCIConfiguration(hostPci[k]);
        if pci.Some? {
          actual := actual[k := pci.value];
        }
        todo := todo - {k};
      }
    }

    /** Stops the machine and starts it again: the devices take effect. */
    method Restart(stop: Reply, start: Reply) returns (ok: bool)
      modifies this`running
      ensures ok <==> stop.Answered? && start.Answered?
      ensures running == match stop
                         case Answered => start != Lost(false)
                         case Lost(stopped) => old(running) && !stopped
    {
      running := running && stop == Lost(false);
      if !stop.Answered? {
        return false;
      }
      running := start != Lost(false);
      ok := start.Answered?;
    }

    /** Reads the options, skipping those it cannot read, brings them in line and
        restarts the machine if that changed a device. An empty wish list changes
        nothing. The machine is left stopped only when all is written, after a stop
        whose answer is lost or a start that failed. */
    method ConfigureVirtualMachinePCI(desired: seq<PciDevice>, calls: string -> Reply, stop: Reply, start: Reply)
      returns (ok: bool)
      modifies this
      ensures desired == [] ==> ok && hostPci == old(hostPci) && running == old(running)
      ensures desired != [] && ok ==>
        && hostPci == Target(old(hostPci), Parsed(old(hostPci)), Want(desired))
        && running == (old(running) || Parsed(old(hostPci)) != Want(desired))
      ensures desired != [] ==> forall k ::
        || SameAt(hostPci, old(hostPci), k)
        || SameAt(hostPci, Target(old(hostPci), Parsed(old(hostPci)), Want(desired)), k)
      ensures old(running) && !running ==>
        && (stop == Lost(true) || (stop.Answered? && start == Lost(false)))
        && Parsed(old(hostPci)) != Want(desired)
        && hostPci == Target(old(hostPci), Parsed(old(hostPci)), Want(desired))
      ensures (forall k :: calls(k).Answered?) && stop.Answered? && start.Answered? ==> ok
    {
      var actual := ReadDevices();
      if |desired| == 0 {
        return true;
      }
      var restart := ApplyPCIChanges(desired, actual, calls);
      if restart.None? {
        return false;
      }
      ok := true;
      if restart.value {
        ok := Restart(stop, start);
      }
    }
  }

  // ------------------------------------------------------------------- results

  lemma WantHas(desired: seq<PciDevice>, k: string)
    ensures k in Want(desired) <==> exists i: nat :: i < |desired| && k == "hostpci" + Itoa(i)
  {
    if k in Want(desired) {
      WantedIsDesired(desired, k);
      var i :| 0 <= i < |desired| && k == Index(i);
      assert k == "hostpci" + Itoa(i);
    }
    if i: nat :| i < |desired| && k == "hostpci" + Itoa(i) {
      WantAt(desired, i);
    }
  }

  /** The result has the wanted entries, those that cannot be read, and no others. */
  lemma TargetHas(texts: map<string, string>, desired: seq<PciDevice>, k: string)
    ensures k in Target(texts, Parsed(texts), Want(desired)) <==>
      (exists i: nat :: i < |desired| && k == "hostpci" + Itoa(i)) || (k in texts && Parse(texts[k]).None?)
  {
    WantHas(desired, k);
  }

  /** Entry by entry: what is wanted is written unless it reads so already, and an entry
      that cannot be read and is not wanted stays. */
  lemma TargetIs(texts: map<string, string>, desired: seq<PciDevice>, k: string, i: nat)
    ensures
      var t := Target(texts, Parsed(texts), Want(desired));
      && (i < |desired| && k == "hostpci" + Itoa(i) ==>
            && k in t
            && t[k] == if k in texts && Parse(texts[k]) == Some(desired[i]) then texts[k]
                       else BuildPCIOptions(desired[i]))
      && ((forall j: nat :: j < |desired| ==> k != "hostpci" + Itoa(j)) && k in texts && Parse(texts[k]).None? ==>
            k in t && t[k] == texts[k])
  {
    if i < |desired| && k == "hostpci" + Itoa(i) {
      WantAt(desired, i);
    }
    WantHas(desired, k);
  }

  /** A wanted entry reads as what was wanted exactly when that is writable. */
  lemma TargetReadsBack(texts: map<string, string>, desired: seq<PciDevice>, i: nat)
    requires i < |desired|
    ensures Index(i) in Target(texts, Parsed(texts), Want(desired))
    ensures Parse(Target(texts, Parsed(texts), Want(desired))[Index(i)]) == Some(desired[i]) <==> Writable(desired[i])
  {
    WantAt(desired, i);
    var text := Target(texts, Parsed(texts), Want(desired))[Index(i)];
    ReadsBackExactly(desired[i]);
    if Parse(text) == Some(desired[i]) {
      ParsedIsWritable(text);
    }
  }

  ghost predicate Reads(texts: map<string, string>, want: map<string, PciDevice>, k: string) {
    if k in want then k in texts && Parse(texts[k]) == Some(want[k]) else k in texts ==> Parse(texts[k]).None?
  }

  lemma ParsedIs(texts: map<string, string>, want: map<string, PciDevice>)
    requires forall k :: Reads(texts, want, k)
    ensures Parsed(texts) == want
  {
    forall k ensures k in Parsed(texts) <==> k in want { assert Reads(texts, want, k); }
    forall k | k in want ensures Parsed(texts)[k] == want[k] { assert Reads(texts, want, k); }
  }

  lemma TargetAt(texts: map<string, string>, want: map<string, PciDevice>, k: string)
    requires k in want ==> Parse(BuildPCIOptions(want[k])) == Some(want[k])
    ensures Reads(Target(texts, Parsed(texts), want), want, k)
  {
  }

  lemma TargetReadsAs(texts: map<string, string>, want: map<string, PciDevice>)
    requires forall k :: k in want ==> Parse(BuildPCIOptions(want[k])) == Some(want[k])
    ensures Parsed(Target(texts, Parsed(texts), want)) == want
  {
    var t := Target(texts, Parsed(texts), want);
    forall k ensures Reads(t, want, k) { TargetAt(texts, want, k); }
    ParsedIs(t, want);
  }

  lemma WritableIsReached(texts: map<string, string>, desired: seq<PciDevice>)
    requires forall i :: 0 <= i < |desired| ==> Writable(desired[i])
    ensures Parsed(Target(texts, Parsed(texts), Want(desired))) == Want(desired)
  {
    var want := Want(desired);
    forall k | k in want ensures Parse(BuildPCIOptions(want[k])) == Some(want[k]) {
      WantedIsDesired(desired, k);
      ReadsBackExactly(want[k]);
    }
    TargetReadsAs(texts, want);
  }

  lemma NothingToDo(texts: map<string, string>)
    ensures Target(texts, Parsed(texts), Parsed(texts)) == texts
  {
  }

  /** A second run finds what the first one wrote, changes nothing and asks for no
      restart, exactly when every desired device is writable. */
  lemma SecondRunQuietExactly(texts: map<string, string>, desired: seq<PciDevice>)
    ensures
      var t := Target(texts, Parsed(texts), Want(desired));
      (Parsed(t) == Want(desired) && Target(t, Parsed(t), Want(desired)) == t) <==>
      forall i :: 0 <= i < |desired| ==> Writable(desired[i])
  {
    var t := Target(texts, Parsed(texts), Want(desired));
    if Parsed(t) == Want(desired) {
      forall i | 0 <= i < |desired| ensures Writable(desired[i]) {
        TargetReadsBack(texts, desired, i);
        WantAt(desired, i);
        assert Index(i) in Parsed(t);
      }
      NothingToDo(t);
    } else if forall i :: 0 <= i < |desired| ==> Writable(desired[i]) {
      WritableIsReached(texts, desired);
      assert false;
    }
  }
}
