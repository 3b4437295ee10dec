/** Environment overrides: which field a key reaches, and when the order of application cannot matter. */
module Overrides {
  import opened Prelude
  import opened Decimal
  import opened Text
  import opened Config
  import opened Ipv4
  import opened OrderFree

  // The reference: a flat table of keys.

  function RouterField(path: string): Option<Field>
  {
    var (head, tail) := SplitOnce(path, '.');
    match head
    case "transport" => Some(Transport)
    case "device_id" => Some(DeviceId)
    case "vendor_id" => Some(VendorId)
    case "device_name" => Some(DeviceName)
    case "lan" => if tail.None? then None else LanField(tail.value)
    case "sc" => if tail.None? then None else ScField(tail.value)
    case "tailscale" => if tail.None? then None else TailscaleField(tail.value)
    case _ => None
  }

  function LanField(path: string): Option<Field>
  {
    match path
    case "interface" => Some(LanInterface)
    case "port" => Some(LanPort)
    case _ => None
  }

  function ScField(path: string): Option<Field>
  {
    match path
    case "hub_url" => Some(HubUrl)
    case "reconnect_initial_ms" => Some(ReconnectInitialMs)
    case "reconnect_max_ms" => Some(ReconnectMaxMs)
    case "reconnect_max_attempts" => Some(ReconnectMaxAttempts)
    case "client_cert" => Some(ClientCert)
    case "client_key" => Some(ClientKey)
    case "ca_cert" => Some(CaCert)
    case "danger_accept_invalid_certs" => Some(DangerAcceptInvalidCerts)
    case _ => None
  }

  function TailscaleField(path: string): Option<Field>
  {
    match path
    case "interface" => Some(TailscaleInterface)
    case "port" => Some(TailscalePort)
    case _ => None
  }

  function WebField(path: string): Option<Field>
  {
    match path
    case "host" => Some(WebHost)
    case "port" => Some(WebPort)
    case "open_browser" => Some(OpenBrowser)
    case _ => None
  }

  function HubField(path: string): Option<Field>
  {
    match path
    case "bind" => Some(HubBind)
    case "cert" => Some(HubCert)
    case "key" => Some(HubKey)
    case "acme_domain" => Some(AcmeDomain)
    case "acme_cache" => Some(AcmeCache)
    case "acme_production" => Some(AcmeProduction)
    case _ => None
  }

  /** The field a key resolves to, if any. */
  function Target(key: string): Option<Field>
  {
    var (section, rest) := SplitOnce(key, '.');
    if rest.None? then None
    else
      match section
      case "router" => RouterField(rest.value)
      case "web" => WebField(rest.value)
      case "hub" => HubField(rest.value)
      case _ => None
  }

  /** A text assigned to the field a key resolved to, if it resolved and the text parses. */
  function Assigned(c: BridgeConfig, field: Option<Field>, value: string): BridgeConfig
  {
    match field
    case None => c
    case Some(f) =>
      match Parse(f, value)
      case None => c
      case Some(v) => Set(c, f, v)
  }

  function ApplyOne(c: BridgeConfig, key: string, value: string): BridgeConfig { Assigned(c, Target(key), value) }

  // The parts of the record: its named fields, and the distribution table.

  datatype Part = Named(f: Field) | Table

  datatype PartValue = Plain(v: FieldValue) | Rows(bdt: Option<seq<BdtEntry>>)

  function GetPart(c: BridgeConfig, p: Part): PartValue
  {
    match p
    case Named(f) => Plain(Get(c, f))
    case Table => Rows(Bdt(c))
  }

  type OverrideMap = map<string, string>

  /** One step of the loop over the map. */
  function ApplyKey(m: OverrideMap): (BridgeConfig, string) -> BridgeConfig
  {
    (c: BridgeConfig, k: string) => if k in m then ApplyOne(c, k, m[k]) else c
  }

  /** The part a key of the map assigns, and the value its text gives that part. */
  function Meaning(k: string, m: OverrideMap): Option<(Part, PartValue)>
  {
    if k !in m then None
    else
      match Target(k)
      case None => None
      case Some(f) =>
        match Parse(f, m[k])
        case None => None
        case Some(v) => Some((Named(f), Plain(v)))
  }

  function ConfigEngine(m: OverrideMap): Engine<BridgeConfig, string, Part, PartValue>
  {
    Engine(GetPart, ApplyKey(m), k => Meaning(k, m))
  }

  lemma {:induction false} AssignedGet(c: BridgeConfig, field: Option<Field>, value: string, p: Part)
    ensures GetPart(Assigned(c, field, value), p) ==
            if field.Some? && Parse(field.value, value).Some? && p == Named(field.value)
            then Plain(Parse(field.value, value).value) else GetPart(c, p)
  {
    if field.Some? && Parse(field.value, value).Some? {
      SetGet(c, field.value, Parse(field.value, value).value, if p.Named? then p.f else Transport);
    }
  }

  lemma {:induction false} ConfigEngineLawful(m: OverrideMap)
    ensures Lawful(ConfigEngine(m))
  {
    var e := ConfigEngine(m);
    forall c, k, p
      ensures e.get(e.apply(c, k), p) == if OrderFree.Speaks(e, k, p) then e.meaning(k).value.1 else e.get(c, p)
    {
      if k in m {
        AssignedGet(c, Target(k), m[k], p);
      }
    }
    forall a, b | SameParts(e, a, b)
      ensures a == b
    {
      forall f: Field
        ensures Get(a, f) == Get(b, f)
      {
        assert e.get(a, Named(f)) == e.get(b, Named(f));
      }
      assert e.get(a, Table) == e.get(b, Table);
      SameFields(a, b);
    }
  }

  /**
   The order in which the map is iterated cannot matter exactly when no two keys resolve to one field
   with different parsed values.
   */
  lemma {:induction false} OverrideOrder(c: BridgeConfig, m: OverrideMap)
    ensures OrderIndependent(ConfigEngine(m), c, m.Keys)
       <==> forall j, k | j in m && k in m && Meaning(j, m).Some? && Meaning(k, m).Some? ::
              Meaning(j, m).value.0 == Meaning(k, m).value.0 ==> Meaning(j, m).value.1 == Meaning(k, m).value.1
  {
    var e := ConfigEngine(m);
    ConfigEngineLawful(m);
    OrderIndependence(e, c, m.Keys);
    assert forall j, k | j in m && k in m :: Clash(e, j, k) <==>
      && Meaning(j, m).Some? && Meaning(k, m).Some?
      && Meaning(j, m).value.0 == Meaning(k, m).value.0 && Meaning(j, m).value.1 != Meaning(k, m).value.1;
  }

  /** What a key of the map speaks of, in the engine's terms. */
  lemma {:induction false} SpeaksOfTarget(m: OverrideMap, k: string, p: Part)
    requires k in m
    ensures OrderFree.Speaks(ConfigEngine(m), k, p)
       <==> p.Named? && Target(k) == Some(p.f) && Parse(p.f, m[k]).Some?
    ensures OrderFree.Speaks(ConfigEngine(m), k, p) ==>
              ConfigEngine(m).meaning(k).value.1 == Plain(Parse(p.f, m[k]).value)
  {
  }

  lemma {:induction false} DistinctAgree(m: OverrideMap)
    requires forall j, k | j in m && k in m && j != k :: Target(j).None? || Target(j) != Target(k)
    ensures Agree(ConfigEngine(m), m.Keys)
  {
    var e := ConfigEngine(m);
    forall j, k | j in m && k in m
      ensures !Clash(e, j, k)
    {
      if j != k && Meaning(j, m).Some? && Meaning(k, m).Some? {
        assert Target(j) != Target(k);
      }
    }
  }

  /**
   In particular when no two keys resolve to one field. Then, in every order, a field is its own key's
   value, or the original one when no key speaks of it, and the distribution table never changes.
   */
  lemma {:induction false} DistinctTargets(c: BridgeConfig, m: OverrideMap, order: seq<string>, f: Field)
    requires forall j, k | j in m && k in m && j != k :: Target(j).None? || Target(j) != Target(k)
    requires Enumerates(order, m.Keys)
    ensures OrderIndependent(ConfigEngine(m), c, m.Keys)
    ensures var r := Fold(ConfigEngine(m), c, order);
            && GetPart(r, Table) == GetPart(c, Table)
            && (forall k | k in m && Target(k) == Some(f) :: Get(r, f) == Parse(f, m[k]).UnwrapOr(Get(c, f)))
            && ((forall k | k in m :: Target(k) != Some(f)) ==> Get(r, f) == Get(c, f))
  {
    var e := ConfigEngine(m);
    DistinctAgree(m);
    ConfigEngineLawful(m);
    OrderIndependence(e, c, m.Keys);
    Outcome(e, c, order, Named(f));
    Outcome(e, c, order, Table);
    forall k | k in m
      ensures OrderFree.Speaks(e, k, Named(f)) <==> Target(k) == Some(f) && Parse(f, m[k]).Some?
      ensures OrderFree.Speaks(e, k, Named(f)) ==> e.meaning(k).value.1 == Plain(Parse(f, m[k]).value)
      ensures !OrderFree.Speaks(e, k, Table)
    {
      SpeaksOfTarget(m, k, Named(f));
      SpeaksOfTarget(m, k, Table);
    }
    var r := Fold(e, c, order);
    assert e.get(r, Table) == GetPart(r, Table) && e.get(c, Table) == GetPart(c, Table);
    assert e.get(r, Named(f)) == Plain(Get(r, f)) && e.get(c, Named(f)) == Plain(Get(c, f));
  }

  const TRANSPORT_KEY := "router.transport"

  /** The two texts a key is split into, given apart: a key that is one literal is costly to split. */
  lemma {:induction false} SplitTransportKey(section: string, name: string, tail: string)
    requires section == "router" && name == "transport"
    ensures Target(section + ['.'] + name) == Some(Transport)
    ensures Target(section + ['.'] + (name + ['.'] + tail)) == Some(Transport)
  {
    SplitOnceHead(section, name, '.');
    SplitOnceHead(section, name + ['.'] + tail, '.');
    SplitOnceHead(name, tail, '.');
  }

  lemma {:induction false} TransportKeys(key: string, tail: string)
    requires key == TRANSPORT_KEY
    ensures Target(key) == Some(Transport)
    ensures Target(key + ['.'] + tail) == Some(Transport)
  {
    var section, name := key[..6], key[7..];
    assert key == section + ['.'] + name;
    assert key + ['.'] + tail == section + ['.'] + (name + ['.'] + tail);
    SplitTransportKey(section, name, tail);
  }

  lemma {:induction false} TwoTransportKeys(c: BridgeConfig, j: string, k: string, u: string, v: string)
    requires j != k && Target(j) == Some(Transport) && Target(k) == Some(Transport)
    ensures OrderIndependent(ConfigEngine(map[j := u, k := v]), c, {j, k}) <==> u == v
  {
    var m := map[j := u, k := v];
    assert m.Keys == {j, k} && m[j] == u && m[k] == v;
    assert Meaning(j, m) == Some((Named(Transport), Plain(Text(u))));
    assert Meaning(k, m) == Some((Named(Transport), Plain(Text(v))));
    OverrideOrder(c, m);
  }

  /** Two spellings can share a field, because what follows a scalar's name is ignored: then order decides. */
  lemma {:induction false} SharedField(c: BridgeConfig, tail: string, u: string, v: string)
    ensures var j, k := TRANSPORT_KEY, TRANSPORT_KEY + ['.'] + tail;
            OrderIndependent(ConfigEngine(map[j := u, k := v]), c, {j, k}) <==> u == v
  {
    var j, k := TRANSPORT_KEY, TRANSPORT_KEY + ['.'] + tail;
    TransportKeys(j, tail);
    assert |j| != |k|;
    TwoTransportKeys(c, j, k, u, v);
  }

  /** The configuration behind the lock, overridden in place. */
  class ConfigStore {
    var router: RouterConfig
    var web: WebConfig
    var hub: HubConfig

    function View(): BridgeConfig
      reads this
    {
      BridgeConfig(router, web, hub)
    }

    constructor (config: BridgeConfig)
      ensures View() == config
    {
      router, web, hub := config.router, config.web, config.hub;
    }

    method ApplyOverrides(overrides: OverrideMap)
      modifies this
      ensures exists order :: Enumerates(order, overrides.Keys)
                              && View() == Fold(ConfigEngine(overrides), old(View()), order)
    {
      ghost var order: seq<string> := [];
      var left := overrides.Keys;
      while left != {}
        invariant left <= overrides.Keys
        invariant forall k :: k in order <==> k in overrides && k !in left
        invariant forall i, j | 0 <= i < j < |order| :: order[i] != order[j]
        invariant View() == Fold(ConfigEngine(overrides), old(View()), order)
        decreases |left|
      {
        var path :| path in left;
        left := left - {path};
        var value := overrides[path];
        ghost var before := View();
        var (section, rest) := SplitOnce(path, '.');
        if rest.Some? {
          match section
          case "router" => ApplyRouterOverride(rest.value, value);
          case "web" => ApplyWebOverride(rest.value, value);
          case "hub" => ApplyHubOverride(rest.value, value);
          case _ =>
        }
        assert View() == ConfigEngine(overrides).apply(before, path);
        assert (order + [path])[..|order|] == order;
        order := order + [path];
      }
      assert Enumerates(order, overrides.Keys);
    }

    method ApplyRouterOverride(path: string, value: string)
      modifies this`router
      ensures View() == Assigned(old(View()), RouterField(path), value)
    {
      var (head, tail) := SplitOnce(path, '.');
      match head
      case "transport" => router := router.(transport := value);
      case "device_id" =>
        var v := ParseUnsigned(value, 0xFFFF_FFFF);
        if v.Some? {
          router := router.(deviceId := v.value);
        }
      case "vendor_id" =>
        var v := ParseUnsigned(value, 0xFFFF);
        if v.Some? {
          router := router.(vendorId := v.value);
        }
      case "device_name" => router := router.(deviceName := value);
      case "lan" =>
        if tail.None? {
          return;
        }
        match tail.value {
          case "interface" => router := router.(lan := router.lan.(interface := value));
          case "port" =>
            var v := ParseUnsigned(value, 0xFFFF);
            if v.Some? {
              router := router.(lan := router.lan.(port := v.value));
            }
          case _ =>
        }
      case "sc" =>
        if tail.None? {
          return;
        }
        ApplyScOverride(tail.value, value);
      case "tailscale" =>
        if tail.None? {
          return;
        }
        match tail.value {
          case "interface" => router := router.(tailscale := router.tailscale.(interface := value));
          case "port" =>
            var v := ParseUnsigned(value, 0xFFFF);
            if v.Some? {
              router := router.(tailscale := router.tailscale.(port := v.value));
            }
          case _ =>
        }
      case _ =>
    }

    method ApplyScOverride(path: string, value: string)
      modifies this`router
      ensures View() == Assigned(old(View()), ScField(path), value)
    {
      match path
      case "hub_url" => router := router.(sc := router.sc.(hubUrl := value));
      case "reconnect_initial_ms" | "reconnect_max_ms" | "reconnect_max_attempts" => ApplyReconnectOverride(path, value);
      case "client_cert" => router := router.(sc := router.sc.(clientCert := Some(value)));
      case "client_key" => router := router.(sc := router.sc.(clientKey := Some(value)));
      case "ca_cert" => router := router.(sc := router.sc.(caCert := Some(value)));
      case "danger_accept_invalid_certs" =>
        router := router.(sc := router.sc.(dangerAcceptInvalidCerts := value == "true" || value == "1"));
      case _ =>
    }

    method ApplyReconnectOverride(path: string, value: string)
      requires path == "reconnect_initial_ms" || path == "reconnect_max_ms" || path == "reconnect_max_attempts"
      modifies this`router
      ensures View() == Assigned(old(View()), ScField(path), value)
    {
      var v := ParseUnsigned(value, if path == "reconnect_max_attempts" then 0xFFFF_FFFF else 0xFFFF_FFFF_FFFF_FFFF);
      if v.Some? {
        match path
        case "reconnect_initial_ms" => router := router.(sc := router.sc.(reconnectInitialMs := v.value));
        case "reconnect_max_ms" => router := router.(sc := router.sc.(reconnectMaxMs := v.value));
        case _ => router := router.(sc := router.sc.(reconnectMaxAttempts := v.value));
      }
    }

    method ApplyWebOverride(path: string, value: string)
      modifies this`web
      ensures View() == Assigned(old(View()), WebField(path), value)
    {
      match path
      case "host" => web := web.(host := value);
      case "port" =>
        var v := ParseUnsigned(value, 0xFFFF);
        if v.Some? {
          web := web.(port := v.value);
        }
      case "open_browser" =>
        var v := ParseBool(value);
        if v.Some? {
          web := web.(openBrowser := v.value);
        }
      case _ =>
    }

    method ApplyHubOverride(path: string, value: string)
      modifies this`hub
      ensures View() == Assigned(old(View()), HubField(path), value)
    {
      match path
      case "bind" => hub := hub.(bind := value);
      case "cert" => hub := hub.(cert := Some(value));
      case "key" => hub := hub.(key := Some(value));
      case "acme_domain" => hub := hub.(acmeDomain := value);
      case "acme_cache" => hub := hub.(acmeCache := value);
      case "acme_production" =>
        var v := ParseBool(value);
        if v.Some? {
          hub := hub.(acmeProduction := v.value);
        }
      case _ =>
    }
  }
}
