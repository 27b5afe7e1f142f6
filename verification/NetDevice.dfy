/** The net device option: its printer, the regular expressions that read it back, and the comparison. */
module NetDevice {
  import opened Base
  import opened Strings

  const MAX_INT32: int := 0x7fff_ffff
  const MAX_UINT16: int := 0xffff
  const DEFAULT_NAME := "net0"

  datatype Device = Device(name: string, model: Option<string>, bridge: Option<string>,
                           mtu: Option<int>, vlan: Option<int>, queues: Option<int>)
  {
    function Model(): string { model.Or("virtio") }

    function Bridge(): string { bridge.Or("") }
  }

  // ---- printing ----------------------------------------------------------------------------------

  function Pair(key: string, value: string): string { key + ['='] + value }

  function Number(key: string, n: Option<int>): seq<string> {
    if n.Some? then [Pair(key, Decimal(n.value))] else []
  }

  function Options(d: Device): seq<string> {
    [Pair("bridge", d.Bridge())] + (Number("mtu", d.mtu) + (Number("tag", d.vlan) + Number("queues", d.queues)))
  }

  function Format(d: Device): string { Join([d.Model()] + Options(d), ',') }

  method FormatNetworkDevice(model: string, bridge: string, mtu: Option<int>, vlan: Option<int>, queues: Option<int>)
    returns (s: string)
    ensures s == Format(Device("", Some(model), Some(bridge), mtu, vlan, queues))
  {
    var components := [model, Pair("bridge", bridge)];
    if mtu.Some? {
      components := components + [Pair("mtu", Decimal(mtu.value))];
    }
    if vlan.Some? {
      components := components + [Pair("tag", Decimal(vlan.value))];
    }
    if queues.Some? {
      components := components + [Pair("queues", Decimal(queues.value))];
    }
    assert components == [model] + Options(Device("", Some(model), Some(bridge), mtu, vlan, queues));
    s := Join(components, ',');
  }

  // ---- reading back ------------------------------------------------------------------------------

  predicate HasKey(part: string, key: string) { key + ['='] <= part }

  function After(part: string, key: string): string
    requires HasKey(part, key)
  {
    part[|key| + 1..]
  }

  /** `(?:^|,)key=([^,]+)`: the first part with the key and something after it. */
  function FindValue(parts: seq<string>, key: string): Option<string> {
    if parts == [] then None
    else if HasKey(parts[0], key) && After(parts[0], key) != "" then Some(After(parts[0], key))
    else FindValue(parts[1..], key)
  }

  function DigitRun(s: string): (r: string)
    ensures Digits(r)
  {
    if s != "" && IsDigit(s[0]) then [s[0]] + DigitRun(s[1..]) else ""
  }

  /** `(?:^|,)key=(\d+)`: the first part with the key and a digit after it. */
  function FindDigits(parts: seq<string>, key: string): (r: Option<string>)
    ensures r.Some? ==> Digits(r.value)
  {
    if parts == [] then None
    else if HasKey(parts[0], key) && DigitRun(After(parts[0], key)) != "" then Some(DigitRun(After(parts[0], key)))
    else FindDigits(parts[1..], key)
  }

  /** A number too large for its width reads as 0, like a missing one. */
  function ExtractNumber(net: string, key: string, max: int): int {
    var digits := FindDigits(Split(net, ','), key);
    if digits.Some? && ValueOf(digits.value) <= max then ValueOf(digits.value) else 0
  }

  function ExtractBridge(net: string): string { FindValue(Split(net, ','), "bridge").Or("unknown") }

  function ExtractMTU(net: string): int { ExtractNumber(net, "mtu", MAX_INT32) }

  function ExtractVLAN(net: string): int { ExtractNumber(net, "tag", MAX_INT32) }

  function ExtractQueues(net: string): int { ExtractNumber(net, "queues", MAX_UINT16) }

  /** The first run of characters other than '='. */
  function NameRun(part: string): string {
    if part == "" then ""
    else if part[0] == '=' then NameRun(part[1..])
    else part[..IndexOf(part, '=')]
  }

  /** `([^,=]+)(?:=[^,]*)?,bridge=([^,]+)`: the name in front of the first bridge that has one. */
  function FindModel(parts: seq<string>): string {
    if |parts| < 2 then ""
    else if HasKey(parts[1], "bridge") && After(parts[1], "bridge") != "" && NameRun(parts[0]) != "" then NameRun(parts[0])
    else FindModel(parts[1..])
  }

  function ExtractModel(net: string): string { FindModel(Split(net, ',')) }

  /** `=([^,]+),bridge`: what follows the first equals sign in front of a bridge. */
  function FindMAC(parts: seq<string>): string {
    if |parts| < 2 then ""
    else
      var i := IndexOf(parts[0], '=');
      if "bridge" <= parts[1] && i + 1 < |parts[0]| then parts[0][i + 1..] else FindMAC(parts[1..])
  }

  function ExtractMAC(net: string): string { FindMAC(Split(net, ',')) }

  /** The stored device differs from the wanted one. */
  predicate Differs(d: Device, net: string) {
    || net == ""
    || ExtractModel(net) != d.Model() || ExtractBridge(net) != d.Bridge()
    || (d.mtu.Some? && ExtractMTU(net) != d.mtu.value)
    || (d.vlan.Some? && ExtractVLAN(net) != d.vlan.value)
    || (d.queues.Some? && ExtractQueues(net) != d.queues.value)
  }

  function NetOf(nets: map<string, string>, d: Device): string {
    var name := if d.name == "" then DEFAULT_NAME else d.name;
    if name in nets then nets[name] else ""
  }

  method ShouldUpdateNetworkDevices(devices: seq<Device>, nets: map<string, string>) returns (update: bool)
    ensures update <==> exists i :: 0 <= i < |devices| && Differs(devices[i], NetOf(nets, devices[i]))
  {
    for i := 0 to |devices|
      invariant forall j :: 0 <= j < i ==> !Differs(devices[j], NetOf(nets, devices[j]))
    {
      var d := devices[i];
      var name := d.name;
      if |name| == 0 {
        name := DEFAULT_NAME;
      }
      var net := if name in nets then nets[name] else "";
      assert net == NetOf(nets, d);
      if |net| == 0 {
        return true;
      }
      if ExtractModel(net) != d.Model() || ExtractBridge(net) != d.Bridge() {
        return true;
      }
      if d.mtu.Some? && ExtractMTU(net) != d.mtu.value {
        return true;
      }
      if d.vlan.Some? && ExtractVLAN(net) != d.vlan.value {
        return true;
      }
      if d.queues.Some? && ExtractQueues(net) != d.queues.value {
        return true;
      }
    }
    return false;
  }

  // ---- the stored form ---------------------------------------------------------------------------

  const KEYS := {"bridge", "mtu", "tag", "queues"}

  /** Models that cannot be mistaken for an option. */
  predicate ValidModel(model: string) { model != "" && ',' !in model && '=' !in model && model !in KEYS }

  predicate InRange(n: Option<int>, max: int) { n.Some? ==> 0 <= n.value <= max }

  predicate Printable(d: Device) {
    ValidModel(d.Model()) && InRange(d.mtu, MAX_INT32) && InRange(d.vlan, MAX_INT32) && InRange(d.queues, MAX_UINT16)
  }

  predicate ValidBridge(bridge: string) { bridge != "" && ',' !in bridge }

  predicate ValidMAC(mac: Option<string>) { mac.Some? ==> ',' !in mac.value }

  /** Proxmox puts the MAC address it assigned behind the model. */
  function Head(d: Device, mac: Option<string>): string {
    if mac.Some? then Pair(d.Model(), mac.value) else d.Model()
  }

  function Stored(d: Device, mac: Option<string>): string { Join([Head(d, mac)] + Options(d), ',') }

  lemma StoredWithoutMAC(d: Device)
    ensures Stored(d, None) == Format(d)
  {
  }

  lemma PairHasKey(key: string, value: string, other: string)
    requires '=' !in key && '=' !in other
    ensures HasKey(Pair(key, value), other) <==> key == other
    ensures After(Pair(key, value), key) == value
  {
    var p := Pair(key, value);
    assert p[|key|] == '=' && p[..|key|] == key;
    if HasKey(p, other) {
      var q := other + ['='];
      assert q[|other|] == '=' && p[|other|] == '=';
      assert forall i :: 0 <= i < |other| ==> p[i] == q[i] == other[i];
      assert forall i :: 0 <= i < |key| ==> p[i] == key[i];
      assert |key| == |other|;
      assert p[..|key|] == other;
    }
    if key == other {
      assert p[..|key| + 1] == key + ['='];
    }
  }

  lemma HeadHasNoKey(d: Device, mac: Option<string>, key: string)
    requires ValidModel(d.Model()) && key in KEYS
    ensures !HasKey(Head(d, mac), key)
  {
    if mac.Some? {
      PairHasKey(d.Model(), mac.value, key);
    } else {
      assert (key + ['='])[|key|] == '=';
    }
  }

  lemma {:induction false} DecimalRun(n: nat)
    ensures DigitRun(Decimal(n)) == Decimal(n) && Decimal(n) != "" && ',' !in Decimal(n)
  {
    DecimalValue(n);
    WholeRun(Decimal(n));
  }

  lemma {:induction false} WholeRun(s: string)
    requires Digits(s)
    ensures DigitRun(s) == s
  {
    if s != "" {
      WholeRun(s[1..]);
    }
  }

  lemma {:induction false} NameRunOfHead(model: string, tail: string)
    requires model != "" && '=' !in model && (tail == "" || tail[0] == '=')
    ensures NameRun(model + tail) == model
  {
    var s := model + tail;
    assert s[0] == model[0];
    assert forall j :: 0 <= j < |model| ==> s[j] == model[j];
    assert tail != "" ==> s[|model|] == '=';
    assert IndexOf(s, '=') == |model|;
    assert s[..|model|] == model;
  }

  // ---- reading undoes printing -------------------------------------------------------------------

  lemma OptionsAreCommaFree(d: Device, i: nat)
    requires Printable(d) && ',' !in d.Bridge() && i < |Options(d)|
    ensures ',' !in Options(d)[i]
  {
    if d.mtu.Some? { DecimalRun(d.mtu.value); }
    if d.vlan.Some? { DecimalRun(d.vlan.value); }
    if d.queues.Some? { DecimalRun(d.queues.value); }
  }

  lemma StoredSplits(d: Device, mac: Option<string>)
    requires Printable(d) && ',' !in d.Bridge() && ValidMAC(mac)
    ensures Split(Stored(d, mac), ',') == [Head(d, mac)] + Options(d)
  {
    var parts := [Head(d, mac)] + Options(d);
    forall i | 0 <= i < |parts| ensures ',' !in parts[i] {
      if i > 0 {
        OptionsAreCommaFree(d, i - 1);
      }
    }
    SplitJoin(parts, ',');
  }

  /** The digits of key in a list of printed numbers, the key's own number first or absent. */
  lemma SkipNumber(key: string, n: Option<int>, other: string, rest: seq<string>)
    requires '=' !in key && '=' !in other && key != other
    ensures FindDigits(Number(key, n) + rest, other) == FindDigits(rest, other)
  {
    if n.Some? {
      PairHasKey(key, Decimal(n.value), other);
      assert (Number(key, n) + rest)[1..] == rest;
    } else {
      assert Number(key, n) + rest == rest;
    }
  }

  lemma TakeNumber(key: string, n: Option<int>, rest: seq<string>)
    requires '=' !in key && n.Some? && n.value >= 0
    ensures FindDigits(Number(key, n) + rest, key) == Some(Decimal(n.value))
  {
    PairHasKey(key, Decimal(n.value), key);
    DecimalRun(n.value);
  }

  /** Neither the model nor the bridge is a number. */
  lemma SkipHead(d: Device, mac: Option<string>, key: string)
    requires ValidModel(d.Model()) && key in KEYS && key != "bridge"
    ensures FindDigits([Head(d, mac)] + Options(d), key) ==
            FindDigits(Number("mtu", d.mtu) + (Number("tag", d.vlan) + Number("queues", d.queues)), key)
  {
    var numbers := Number("mtu", d.mtu) + (Number("tag", d.vlan) + Number("queues", d.queues));
    HeadHasNoKey(d, mac, key);
    PairHasKey("bridge", d.Bridge(), key);
    assert ([Head(d, mac)] + Options(d))[1..] == Options(d) && Options(d)[1..] == numbers;
  }

  /** The key's own number, or nothing when no number under the key follows. */
  lemma TakeOrNone(key: string, n: Option<int>, rest: seq<string>)
    requires '=' !in key && (n.Some? ==> n.value >= 0) && FindDigits(rest, key) == None
    ensures FindDigits(Number(key, n) + rest, key) == if n.Some? then Some(Decimal(n.value)) else None
  {
    if n.Some? {
      TakeNumber(key, n, rest);
    } else {
      assert Number(key, n) + rest == rest;
    }
  }

  lemma NumberValue(n: Option<int>, max: int, digits: Option<string>)
    requires InRange(n, max) && digits == (if n.Some? then Some(Decimal(n.value)) else None)
    ensures digits.Some? ==> Digits(digits.value)
    ensures (if digits.Some? && ValueOf(digits.value) <= max then ValueOf(digits.value) else 0) == n.Or(0)
  {
    if n.Some? {
      DecimalValue(n.value);
    }
  }

  /** A number is read back, and an absent one reads as 0. */
  lemma ReadsMTU(d: Device, mac: Option<string>)
    requires Printable(d) && ',' !in d.Bridge() && ValidMAC(mac)
    ensures ExtractMTU(Stored(d, mac)) == d.mtu.Or(0)
  {
    var rest := Number("tag", d.vlan) + Number("queues", d.queues);
    StoredSplits(d, mac);
    SkipHead(d, mac, "mtu");
    assert Number("queues", d.queues) + [] == Number("queues", d.queues);
    SkipNumber("tag", d.vlan, "mtu", Number("queues", d.queues));
    SkipNumber("queues", d.queues, "mtu", []);
    TakeOrNone("mtu", d.mtu, rest);
    NumberValue(d.mtu, MAX_INT32, FindDigits(Number("mtu", d.mtu) + rest, "mtu"));
  }

  lemma ReadsVLAN(d: Device, mac: Option<string>)
    requires Printable(d) && ',' !in d.Bridge() && ValidMAC(mac)
    ensures ExtractVLAN(Stored(d, mac)) == d.vlan.Or(0)
  {
    var rest := Number("queues", d.queues);
    StoredSplits(d, mac);
    SkipHead(d, mac, "tag");
    SkipNumber("mtu", d.mtu, "tag", Number("tag", d.vlan) + rest);
    assert rest + [] == rest;
    SkipNumber("queues", d.queues, "tag", []);
    TakeOrNone("tag", d.vlan, rest);
    NumberValue(d.vlan, MAX_INT32, FindDigits(Number("tag", d.vlan) + rest, "tag"));
  }

  lemma ReadsQueues(d: Device, mac: Option<string>)
    requires Printable(d) && ',' !in d.Bridge() && ValidMAC(mac)
    ensures ExtractQueues(Stored(d, mac)) == d.queues.Or(0)
  {
    var own := Number("queues", d.queues);
    StoredSplits(d, mac);
    SkipHead(d, mac, "queues");
    SkipNumber("mtu", d.mtu, "queues", Number("tag", d.vlan) + own);
    SkipNumber("tag", d.vlan, "queues", own);
    assert own + [] == own;
    TakeOrNone("queues", d.queues, []);
    NumberValue(d.queues, MAX_UINT16, FindDigits(own, "queues"));
  }

  lemma ReadsSecond(head: string, bridge: string, rest: seq<string>)
    requires !HasKey(head, "bridge") && bridge != "" && NameRun(head) != ""
    ensures FindValue([head] + ([Pair("bridge", bridge)] + rest), "bridge") == Some(bridge)
    ensures FindModel([head] + ([Pair("bridge", bridge)] + rest)) == NameRun(head)
  {
    PairHasKey("bridge", bridge, "bridge");
    var options := [Pair("bridge", bridge)] + rest;
    var parts := [head] + options;
    assert parts[1..] == options && parts[1] == options[0];
  }

  lemma HeadNamesModel(d: Device, mac: Option<string>)
    requires ValidModel(d.Model())
    ensures NameRun(Head(d, mac)) == d.Model()
  {
    if mac.Some? {
      NameRunOfHead(d.Model(), ['='] + mac.value);
      assert Head(d, mac) == d.Model() + (['='] + mac.value);
    } else {
      NameRunOfHead(d.Model(), "");
      assert d.Model() + "" == d.Model();
    }
  }

  lemma ReadsModelAndBridge(d: Device, mac: Option<string>)
    requires Printable(d) && ValidBridge(d.Bridge()) && ValidMAC(mac)
    ensures ExtractModel(Stored(d, mac)) == d.Model() && ExtractBridge(Stored(d, mac)) == d.Bridge()
  {
    StoredSplits(d, mac);
    HeadHasNoKey(d, mac, "bridge");
    HeadNamesModel(d, mac);
    ReadsSecond(Head(d, mac), d.Bridge(), Number("mtu", d.mtu) + (Number("tag", d.vlan) + Number("queues", d.queues)));
  }

  lemma ReadsMAC(d: Device, mac: string)
    requires Printable(d) && ',' !in d.Bridge() && ',' !in mac && mac != ""
    ensures ExtractMAC(Stored(d, Some(mac))) == mac
  {
    StoredSplits(d, Some(mac));
    var head := Pair(d.Model(), mac);
    assert head[|d.Model()|] == '=' && forall j :: 0 <= j < |d.Model()| ==> head[j] == d.Model()[j];
    assert IndexOf(head, '=') == |d.Model()|;
    assert head[|d.Model()| + 1..] == mac;
    var parts := [head] + Options(d);
    assert parts[0] == head && parts[1] == Options(d)[0] == Pair("bridge", d.Bridge());
    assert parts[1][..6] == "bridge";
  }

  lemma {:induction false} FoundValueIsValid(parts: seq<string>, key: string)
    requires forall i :: 0 <= i < |parts| ==> ',' !in parts[i]
    ensures FindValue(parts, key).Some? ==> ValidBridge(FindValue(parts, key).value)
  {
    if parts != [] && !(HasKey(parts[0], key) && After(parts[0], key) != "") {
      FoundValueIsValid(parts[1..], key);
    }
  }

  /** No stored string ever reads as an empty bridge or one with a comma. */
  lemma ExtractedBridgeIsValid(net: string)
    ensures ValidBridge(ExtractBridge(net))
  {
    SplitHasNoSeparator(net, ',');
    FoundValueIsValid(Split(net, ','), "bridge");
  }

  /** A stored device differs from the wanted one exactly in the model, the bridge, or a number that is wanted. */
  lemma DiffersIff(wanted: Device, stored: Device, mac: Option<string>)
    requires Printable(wanted) && Printable(stored) && ValidBridge(stored.Bridge()) && ValidMAC(mac)
    ensures Differs(wanted, Stored(stored, mac)) <==>
            || wanted.model.Or("virtio") != stored.model.Or("virtio")
            || wanted.bridge.Or("") != stored.bridge.Or("")
            || (wanted.mtu.Some? && wanted.mtu.value != stored.mtu.Or(0))
            || (wanted.vlan.Some? && wanted.vlan.value != stored.vlan.Or(0))
            || (wanted.queues.Some? && wanted.queues.value != stored.queues.Or(0))
  {
    ReadsModelAndBridge(stored, mac);
    ReadsMTU(stored, mac);
    ReadsVLAN(stored, mac);
    ReadsQueues(stored, mac);
    StoredSplits(stored, mac);
    assert Stored(stored, mac) != "" by {
      assert Head(stored, mac) != "";
    }
  }

  /** What was printed reads as wanted exactly if the bridge is not empty and has no comma. */
  lemma StoredSettlesIff(d: Device, mac: Option<string>)
    requires Printable(d) && ValidMAC(mac)
    ensures !Differs(d, Stored(d, mac)) <==> ValidBridge(d.Bridge())
  {
    ExtractedBridgeIsValid(Stored(d, mac));
    if ValidBridge(d.Bridge()) {
      ReadsModelAndBridge(d, mac);
      DiffersIff(d, d, mac);
    }
  }

  // ---- reconfiguration is a fixpoint -------------------------------------------------------------

  /** The options sent, stored by Proxmox with the MAC addresses it chose. */
  function Configured(devices: seq<Device>, macs: seq<Option<string>>, nets: map<string, string>): map<string, string>
    requires |macs| == |devices|
  {
    if devices == [] then nets
    else
      var n := |devices| - 1;
      Configured(devices[..n], macs[..n], nets)[devices[n].name := Stored(devices[n], macs[n])]
  }

  lemma {:induction false} ConfiguredHas(devices: seq<Device>, macs: seq<Option<string>>, nets: map<string, string>, i: nat)
    requires |macs| == |devices| && i < |devices|
    requires forall j, k :: 0 <= j < k < |devices| ==> devices[j].name != devices[k].name
    ensures devices[i].name in Configured(devices, macs, nets)
    ensures Configured(devices, macs, nets)[devices[i].name] == Stored(devices[i], macs[i])
  {
    var n := |devices| - 1;
    if i < n {
      ConfiguredHas(devices[..n], macs[..n], nets, i);
    }
  }

  /** Once the options are stored, nothing is left to update; valid devices settle, and only they. */
  lemma ReconfigurationIsFixpoint(devices: seq<Device>, macs: seq<Option<string>>, nets: map<string, string>, i: nat)
    requires |macs| == |devices| && i < |devices|
    requires forall j, k :: 0 <= j < k < |devices| ==> devices[j].name != devices[k].name
    requires forall j :: 0 <= j < |devices| ==> devices[j].name != "" && Printable(devices[j]) && ValidMAC(macs[j])
    ensures Differs(devices[i], NetOf(Configured(devices, macs, nets), devices[i])) <==> !ValidBridge(devices[i].Bridge())
  {
    ConfiguredHas(devices, macs, nets, i);
    StoredSettlesIff(devices[i], macs[i]);
  }

  /** The models, MTUs, VLANs and queue counts the API admits are all printable. */
  lemma AdmittedIsPrintable(d: Device)
    requires d.Model() in {"e1000", "virtio", "rtl8139", "vmxnet3"}
    requires d.mtu.Some? ==> d.mtu.value == 1 || 576 <= d.mtu.value <= 65520
    requires d.vlan.Some? ==> 1 <= d.vlan.value <= 4094
    requires d.queues.Some? ==> 1 <= d.queues.value <= 65535
    ensures Printable(d)
  {
  }
}
