/** The configuration record, its overridable fields, and the text values they take. */
module Config {
  import opened Prelude
  import opened Decimal
  import opened Ipv4

  datatype LanConfig = LanConfig(interface: string, port: u16)

  datatype ScConfig = ScConfig(
    hubUrl: string,
    reconnectInitialMs: u64,
    reconnectMaxMs: u64,
    reconnectMaxAttempts: u32,
    clientCert: Option<string>,
    clientKey: Option<string>,
    caCert: Option<string>,
    dangerAcceptInvalidCerts: bool)

  datatype TailscaleConfig = TailscaleConfig(interface: string, port: u16, bdt: Option<seq<BdtEntry>>)

  datatype RouterConfig = RouterConfig(
    transport: string,
    deviceId: u32,
    vendorId: u16,
    deviceName: string,
    lan: LanConfig,
    sc: ScConfig,
    tailscale: TailscaleConfig)

  datatype WebConfig = WebConfig(host: string, port: u16, openBrowser: bool)

  datatype HubConfig = HubConfig(
    bind: string,
    cert: Option<string>,
    key: Option<string>,
    acmeDomain: string,
    acmeCache: string,
    acmeProduction: bool)

  datatype BridgeConfig = BridgeConfig(router: RouterConfig, web: WebConfig, hub: HubConfig)

  // Field names, for saying which field a key reaches.

  datatype Field =
    | Transport | DeviceId | VendorId | DeviceName
    | LanInterface | LanPort
    | HubUrl | ReconnectInitialMs | ReconnectMaxMs | ReconnectMaxAttempts
    | ClientCert | ClientKey | CaCert | DangerAcceptInvalidCerts
    | TailscaleInterface | TailscalePort
    | WebHost | WebPort | OpenBrowser
    | HubBind | HubCert | HubKey | AcmeDomain | AcmeCache | AcmeProduction

  datatype FieldValue = Text(s: string) | OptText(o: Option<string>) | Number(n: int) | Flag(b: bool)

  datatype Kind = TextKind | OptTextKind | NumberKind(max: nat) | FlagKind | LenientFlagKind

  function KindOf(f: Field): Kind
  {
    match f
    case Transport | DeviceName | LanInterface | HubUrl | TailscaleInterface | WebHost | HubBind | AcmeDomain
         | AcmeCache => TextKind
    case ClientCert | ClientKey | CaCert | HubCert | HubKey => OptTextKind
    case VendorId | LanPort | TailscalePort | WebPort => NumberKind(0xFFFF)
    case DeviceId | ReconnectMaxAttempts => NumberKind(0xFFFF_FFFF)
    case ReconnectInitialMs | ReconnectMaxMs => NumberKind(0xFFFF_FFFF_FFFF_FFFF)
    case OpenBrowser | AcmeProduction => FlagKind
    case DangerAcceptInvalidCerts => LenientFlagKind
  }

  predicate Typed(f: Field, v: FieldValue)
  {
    match KindOf(f)
    case TextKind => v.Text?
    case OptTextKind => v.OptText?
    case NumberKind(max) => v.Number? && 0 <= v.n <= max
    case FlagKind | LenientFlagKind => v.Flag?
  }

  /** `parse::<bool>`: exactly the two words. */
  function ParseBool(s: string): Option<bool>
  {
    if s == "true" then Some(true) else if s == "false" then Some(false) else None
  }

  /** The value a text stands for in a field, when it stands for one. */
  function Parse(f: Field, s: string): (r: Option<FieldValue>)
    ensures r.Some? ==> Typed(f, r.value)
  {
    match KindOf(f)
    case TextKind => Some(Text(s))
    case OptTextKind => Some(OptText(Some(s)))
    case NumberKind(max) => (match ParseUnsigned(s, max) case Some(n) => Some(Number(n)) case None => None)
    case FlagKind => (match ParseBool(s) case Some(b) => Some(Flag(b)) case None => None)
    case LenientFlagKind => Some(Flag(s == "true" || s == "1"))
  }

  function Get(c: BridgeConfig, f: Field): (v: FieldValue)
    ensures Typed(f, v)
  {
    match f
    case Transport => Text(c.router.transport)
    case DeviceId => Number(c.router.deviceId)
    case VendorId => Number(c.router.vendorId)
    case DeviceName => Text(c.router.deviceName)
    case LanInterface => Text(c.router.lan.interface)
    case LanPort => Number(c.router.lan.port)
    case HubUrl => Text(c.router.sc.hubUrl)
    case ReconnectInitialMs => Number(c.router.sc.reconnectInitialMs)
    case ReconnectMaxMs => Number(c.router.sc.reconnectMaxMs)
    case ReconnectMaxAttempts => Number(c.router.sc.reconnectMaxAttempts)
    case ClientCert => OptText(c.router.sc.clientCert)
    case ClientKey => OptText(c.router.sc.clientKey)
    case CaCert => OptText(c.router.sc.caCert)
    case DangerAcceptInvalidCerts => Flag(c.router.sc.dangerAcceptInvalidCerts)
    case TailscaleInterface => Text(c.router.tailscale.interface)
    case TailscalePort => Number(c.router.tailscale.port)
    case WebHost => Text(c.web.host)
    case WebPort => Number(c.web.port)
    case OpenBrowser => Flag(c.web.openBrowser)
    case HubBind => Text(c.hub.bind)
    case HubCert => OptText(c.hub.cert)
    case HubKey => OptText(c.hub.key)
    case AcmeDomain => Text(c.hub.acmeDomain)
    case AcmeCache => Text(c.hub.acmeCache)
    case AcmeProduction => Flag(c.hub.acmeProduction)
  }

  function Set(c: BridgeConfig, f: Field, v: FieldValue): BridgeConfig
    requires Typed(f, v)
  {
    match f
    case Transport => c.(router := c.router.(transport := v.s))
    case DeviceId => c.(router := c.router.(deviceId := v.n))
    case VendorId => c.(router := c.router.(vendorId := v.n))
    case DeviceName => c.(router := c.router.(deviceName := v.s))
    case LanInterface => c.(router := c.router.(lan := c.router.lan.(interface := v.s)))
    case LanPort => c.(router := c.router.(lan := c.router.lan.(port := v.n)))
    case HubUrl => c.(router := c.router.(sc := c.router.sc.(hubUrl := v.s)))
    case ReconnectInitialMs => c.(router := c.router.(sc := c.router.sc.(reconnectInitialMs := v.n)))
    case ReconnectMaxMs => c.(router := c.router.(sc := c.router.sc.(reconnectMaxMs := v.n)))
    case ReconnectMaxAttempts => c.(router := c.router.(sc := c.router.sc.(reconnectMaxAttempts := v.n)))
    case ClientCert => c.(router := c.router.(sc := c.router.sc.(clientCert := v.o)))
    case ClientKey => c.(router := c.router.(sc := c.router.sc.(clientKey := v.o)))
    case CaCert => c.(router := c.router.(sc := c.router.sc.(caCert := v.o)))
    case DangerAcceptInvalidCerts => c.(router := c.router.(sc := c.router.sc.(dangerAcceptInvalidCerts := v.b)))
    case TailscaleInterface => c.(router := c.router.(tailscale := c.router.tailscale.(interface := v.s)))
    case TailscalePort => c.(router := c.router.(tailscale := c.router.tailscale.(port := v.n)))
    case WebHost => c.(web := c.web.(host := v.s))
    case WebPort => c.(web := c.web.(port := v.n))
    case OpenBrowser => c.(web := c.web.(openBrowser := v.b))
    case HubBind => c.(hub := c.hub.(bind := v.s))
    case HubCert => c.(hub := c.hub.(cert := v.o))
    case HubKey => c.(hub := c.hub.(key := v.o))
    case AcmeDomain => c.(hub := c.hub.(acmeDomain := v.s))
    case AcmeCache => c.(hub := c.hub.(acmeCache := v.s))
    case AcmeProduction => c.(hub := c.hub.(acmeProduction := v.b))
  }

  /** The one part of the record no field name covers. */
  function Bdt(c: BridgeConfig): Option<seq<BdtEntry>> { c.router.tailscale.bdt }

  lemma {:induction false} SetGetRouter(c: BridgeConfig, f: Field, v: FieldValue, g: Field)
    requires Typed(f, v)
    requires || f.Transport? || f.DeviceId? || f.VendorId? || f.DeviceName? || f.LanInterface? || f.LanPort?
             || f.TailscaleInterface? || f.TailscalePort?
    ensures Get(Set(c, f, v), g) == if f == g then v else Get(c, g)
    ensures Bdt(Set(c, f, v)) == Bdt(c)
  {
  }

  lemma {:induction false} SetGetSc(c: BridgeConfig, f: Field, v: FieldValue, g: Field)
    requires Typed(f, v)
    requires || f.HubUrl? || f.ReconnectInitialMs? || f.ReconnectMaxMs? || f.ReconnectMaxAttempts?
             || f.ClientCert? || f.ClientKey? || f.CaCert? || f.DangerAcceptInvalidCerts?
    ensures Get(Set(c, f, v), g) == if f == g then v else Get(c, g)
    ensures Bdt(Set(c, f, v)) == Bdt(c)
  {
  }

  lemma {:induction false} SetGetWeb(c: BridgeConfig, f: Field, v: FieldValue, g: Field)
    requires Typed(f, v) && (f.WebHost? || f.WebPort? || f.OpenBrowser?)
    ensures Get(Set(c, f, v), g) == if f == g then v else Get(c, g)
    ensures Bdt(Set(c, f, v)) == Bdt(c)
  {
  }

  lemma {:induction false} SetGetHub(c: BridgeConfig, f: Field, v: FieldValue, g: Field)
    requires Typed(f, v)
    requires f.HubBind? || f.HubCert? || f.HubKey? || f.AcmeDomain? || f.AcmeCache? || f.AcmeProduction?
    ensures Get(Set(c, f, v), g) == if f == g then v else Get(c, g)
    ensures Bdt(Set(c, f, v)) == Bdt(c)
  {
  }

  /** Setting a field sets that field and leaves every other one, and the table, alone. */
  lemma {:induction false} SetGet(c: BridgeConfig, f: Field, v: FieldValue, g: Field)
    requires Typed(f, v)
    ensures Get(Set(c, f, v), g) == if f == g then v else Get(c, g)
    ensures Bdt(Set(c, f, v)) == Bdt(c)
  {
    match f
    case Transport | DeviceId | VendorId | DeviceName | LanInterface | LanPort | TailscaleInterface | TailscalePort =>
      SetGetRouter(c, f, v, g);
    case WebHost | WebPort | OpenBrowser => SetGetWeb(c, f, v, g);
    case HubBind | HubCert | HubKey | AcmeDomain | AcmeCache | AcmeProduction => SetGetHub(c, f, v, g);
    case _ => SetGetSc(c, f, v, g);
  }

  lemma {:induction false} SameHub(a: BridgeConfig, b: BridgeConfig)
    requires forall f: Field :: Get(a, f) == Get(b, f)
    ensures a.hub == b.hub
  {
    assert Get(a, HubBind) == Get(b, HubBind);
    assert Get(a, HubCert) == Get(b, HubCert);
    assert Get(a, HubKey) == Get(b, HubKey);
    assert Get(a, AcmeDomain) == Get(b, AcmeDomain);
    assert Get(a, AcmeCache) == Get(b, AcmeCache);
    assert Get(a, AcmeProduction) == Get(b, AcmeProduction);
  }

  lemma {:induction false} SameWebAndLan(a: BridgeConfig, b: BridgeConfig)
    requires forall f: Field :: Get(a, f) == Get(b, f)
    ensures a.web == b.web && a.router.lan == b.router.lan
  {
    assert Get(a, WebHost) == Get(b, WebHost);
    assert Get(a, WebPort) == Get(b, WebPort);
    assert Get(a, OpenBrowser) == Get(b, OpenBrowser);
    assert Get(a, LanInterface) == Get(b, LanInterface);
    assert Get(a, LanPort) == Get(b, LanPort);
  }

  lemma {:induction false} SameSc(a: BridgeConfig, b: BridgeConfig)
    requires forall f: Field :: Get(a, f) == Get(b, f)
    ensures a.router.sc == b.router.sc
  {
    assert Get(a, HubUrl) == Get(b, HubUrl);
    assert Get(a, ReconnectInitialMs) == Get(b, ReconnectInitialMs);
    assert Get(a, ReconnectMaxMs) == Get(b, ReconnectMaxMs);
    assert Get(a, ReconnectMaxAttempts) == Get(b, ReconnectMaxAttempts);
    assert Get(a, ClientCert) == Get(b, ClientCert);
    assert Get(a, ClientKey) == Get(b, ClientKey);
    assert Get(a, CaCert) == Get(b, CaCert);
    assert Get(a, DangerAcceptInvalidCerts) == Get(b, DangerAcceptInvalidCerts);
  }

  /** The fields and the table determine the record. */
  lemma {:induction false} SameFields(a: BridgeConfig, b: BridgeConfig)
    requires forall f: Field :: Get(a, f) == Get(b, f)
    requires Bdt(a) == Bdt(b)
    ensures a == b
  {
    SameHub(a, b);
    SameWebAndLan(a, b);
    SameSc(a, b);
    assert Get(a, Transport) == Get(b, Transport) && Get(a, DeviceId) == Get(b, DeviceId);
    assert Get(a, VendorId) == Get(b, VendorId) && Get(a, DeviceName) == Get(b, DeviceName);
    assert Get(a, TailscaleInterface) == Get(b, TailscaleInterface) && Get(a, TailscalePort) == Get(b, TailscalePort);
  }
}
