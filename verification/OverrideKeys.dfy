/** Every override key by its text, and what the text assigned to it does to the record. */
module OverrideKeys {
  import opened Prelude
  import opened Decimal
  import opened Text
  import opened Config
  import opened Overrides

  // The keys as a user writes them: a section and a name.

  datatype Section = RouterSection | LanSection | ScSection | TailscaleSection | WebSection | HubSection

  function SectionOf(f: Field): Section
  {
    match f
    case Transport | DeviceId | VendorId | DeviceName => RouterSection
    case LanInterface | LanPort => LanSection
    case TailscaleInterface | TailscalePort => TailscaleSection
    case WebHost | WebPort | OpenBrowser => WebSection
    case HubBind | HubCert | HubKey | AcmeDomain | AcmeCache | AcmeProduction => HubSection
    case _ => ScSection
  }

  function SectionText(s: Section): string
  {
    match s
    case RouterSection => "router."
    case LanSection => "router.lan."
    case ScSection => "router.sc."
    case TailscaleSection => "router.tailscale."
    case WebSection => "web."
    case HubSection => "hub."
  }

  function NameText(f: Field): string
  {
    match f
    case Transport => "transport"
    case DeviceId => "device_id"
    case VendorId => "vendor_id"
    case DeviceName => "device_name"
    case LanInterface | TailscaleInterface => "interface"
    case LanPort | TailscalePort | WebPort => "port"
    case HubUrl => "hub_url"
    case ReconnectInitialMs => "reconnect_initial_ms"
    case ReconnectMaxMs => "reconnect_max_ms"
    case ReconnectMaxAttempts => "reconnect_max_attempts"
    case ClientCert => "client_cert"
    case ClientKey => "client_key"
    case CaCert => "ca_cert"
    case DangerAcceptInvalidCerts => "danger_accept_invalid_certs"
    case WebHost => "host"
    case OpenBrowser => "open_browser"
    case HubBind => "bind"
    case HubCert => "cert"
    case HubKey => "key"
    case AcmeDomain => "acme_domain"
    case AcmeCache => "acme_cache"
    case AcmeProduction => "acme_production"
  }

  function KeyText(f: Field): string { SectionText(SectionOf(f)) + NameText(f) }

  lemma {:induction false} SplitOnceJoin(s: string, c: char)
    ensures var (head, tail) := SplitOnce(s, c);
            !Contains(head, c) && s == (match tail case None => head case Some(t) => head + [c] + t)
  {
    if s != "" && s[0] != c {
      SplitOnceJoin(s[1..], c);
      assert s == [s[0]] + s[1..];
      var (head, tail) := SplitOnce(s[1..], c);
      assert forall i | 0 < i < |head| + 1 :: ([s[0]] + head)[i] == head[i - 1];
    }
  }

  lemma {:induction false} WebNames(name: string, f: Field)
    ensures WebField(name) == Some(f) <==> SectionOf(f).WebSection? && name == NameText(f)
  {
  }

  lemma {:induction false} HubNames(name: string, f: Field)
    ensures HubField(name) == Some(f) <==> SectionOf(f).HubSection? && name == NameText(f)
  {
  }

  lemma {:induction false} LanNames(name: string, f: Field)
    ensures LanField(name) == Some(f) <==> SectionOf(f).LanSection? && name == NameText(f)
  {
  }

  lemma {:induction false} TailscaleNames(name: string, f: Field)
    ensures TailscaleField(name) == Some(f) <==> SectionOf(f).TailscaleSection? && name == NameText(f)
  {
  }

  lemma {:induction false} ScNames(name: string, f: Field)
    ensures ScField(name) == Some(f) <==> SectionOf(f).ScSection? && name == NameText(f)
  {
  }

  lemma {:induction false} SplitIs(path: string, head: string, tail: string)
    requires !Contains(head, '.')
    ensures SplitOnce(path, '.') == (head, Some(tail)) <==> path == head + ['.'] + tail
    ensures SplitOnce(path, '.') == (head, None) <==> path == head
  {
    SplitOnceJoin(path, '.');
    SplitOnceHead(head, tail, '.');
  }

  /** A path that goes on after a name and a dot splits off that name. */
  lemma {:induction false} SplitsAt(path: string, head: string)
    requires !Contains(head, '.')
    ensures SplitOnce(path, '.').0 == head <==> path == head || head + ['.'] <= path
  {
    var (h, tail) := SplitOnce(path, '.');
    SplitOnceJoin(path, '.');
    if path == head {
      SplitIs(path, head, "");
    }
    if head + ['.'] <= path {
      SplitIs(path, head, path[|head| + 1..]);
    }
  }

  lemma {:induction false} ScalarNames(path: string, f: Field)
    requires SectionOf(f).RouterSection?
    ensures RouterField(path) == Some(f) <==> SplitOnce(path, '.').0 == NameText(f)
  {
    var (head, tail) := SplitOnce(path, '.');
    if tail.Some? {
      LanNames(tail.value, f);
      ScNames(tail.value, f);
      TailscaleNames(tail.value, f);
    }
  }

  lemma {:induction false} LanPaths(path: string, f: Field)
    requires SectionOf(f).LanSection?
    ensures RouterField(path) == Some(f) <==> SplitOnce(path, '.') == ("lan", Some(NameText(f)))
  {
    var (head, tail) := SplitOnce(path, '.');
    if tail.Some? {
      LanNames(tail.value, f);
      ScNames(tail.value, f);
      TailscaleNames(tail.value, f);
    }
  }

  lemma {:induction false} ScPaths(path: string, f: Field)
    requires SectionOf(f).ScSection?
    ensures RouterField(path) == Some(f) <==> SplitOnce(path, '.') == ("sc", Some(NameText(f)))
  {
    var (head, tail) := SplitOnce(path, '.');
    if tail.Some? {
      LanNames(tail.value, f);
      ScNames(tail.value, f);
      TailscaleNames(tail.value, f);
    }
  }

  lemma {:induction false} TailscalePaths(path: string, f: Field)
    requires SectionOf(f).TailscaleSection?
    ensures RouterField(path) == Some(f) <==> SplitOnce(path, '.') == ("tailscale", Some(NameText(f)))
  {
    var (head, tail) := SplitOnce(path, '.');
    if tail.Some? {
      LanNames(tail.value, f);
      ScNames(tail.value, f);
      TailscaleNames(tail.value, f);
    }
  }

  lemma {:induction false} OtherPaths(path: string, f: Field)
    requires SectionOf(f).WebSection? || SectionOf(f).HubSection?
    ensures RouterField(path) != Some(f)
  {
    var (head, tail) := SplitOnce(path, '.');
    if tail.Some? {
      LanNames(tail.value, f);
      ScNames(tail.value, f);
      TailscaleNames(tail.value, f);
    }
  }

  /** What follows `router.` reaches a field exactly when it is the rest of the field's key. */
  lemma {:induction false} RouterPaths(path: string, f: Field)
    ensures RouterField(path) == Some(f) <==>
            match SectionOf(f)
            case RouterSection => path == NameText(f) || NameText(f) + ['.'] <= path
            case LanSection => path == "lan" + ['.'] + NameText(f)
            case ScSection => path == "sc" + ['.'] + NameText(f)
            case TailscaleSection => path == "tailscale" + ['.'] + NameText(f)
            case _ => false
  {
    match SectionOf(f)
    case RouterSection =>
      ScalarNames(path, f);
      SplitsAt(path, NameText(f));
    case LanSection =>
      LanPaths(path, f);
      SplitIs(path, "lan", NameText(f));
    case ScSection =>
      ScPaths(path, f);
      SplitIs(path, "sc", NameText(f));
    case TailscaleSection =>
      TailscalePaths(path, f);
      SplitIs(path, "tailscale", NameText(f));
    case _ => OtherPaths(path, f);
  }

  lemma {:induction false} SectionKeys(key: string, f: Field)
    ensures Target(key) == Some(f) <==>
            var (section, rest) := SplitOnce(key, '.');
            rest.Some? && match SectionOf(f)
                          case WebSection => section == "web" && rest.value == NameText(f)
                          case HubSection => section == "hub" && rest.value == NameText(f)
                          case _ => section == "router" && RouterField(rest.value) == Some(f)
  {
    var (section, rest) := SplitOnce(key, '.');
    if rest.Some? {
      WebNames(rest.value, f);
      HubNames(rest.value, f);
      if SectionOf(f).WebSection? || SectionOf(f).HubSection? {
        OtherPaths(rest.value, f);
      }
    }
  }

  lemma {:induction false} RouterKeys(key: string, f: Field)
    requires !SectionOf(f).WebSection? && !SectionOf(f).HubSection?
    ensures Target(key) == Some(f) <==>
            "router" + ['.'] <= key && RouterField(key[7..]) == Some(f)
  {
    var (section, rest) := SplitOnce(key, '.');
    SectionKeys(key, f);
    SplitOnceJoin(key, '.');
    SplitsAt(key, "router");
    if "router" + ['.'] <= key {
      SplitIs(key, "router", key[7..]);
      assert key == "router" + ['.'] + key[7..];
    }
  }

  lemma {:induction false} Prefixed(key: string, head: string, rest: string)
    ensures key == head + rest <==> head <= key && key[|head|..] == rest
    ensures head + rest <= key <==> head <= key && rest <= key[|head|..]
  {
  }

  /** The key text of a router field, cut after `router.`. */
  function RouterRest(f: Field): string
  {
    match SectionOf(f)
    case LanSection => "lan" + ['.'] + NameText(f)
    case ScSection => "sc" + ['.'] + NameText(f)
    case TailscaleSection => "tailscale" + ['.'] + NameText(f)
    case _ => NameText(f)
  }

  lemma {:induction false} SectionTexts()
    ensures SectionText(RouterSection) == "router" + ['.']
    ensures SectionText(LanSection) == "router" + ['.'] + ("lan" + ['.'])
    ensures SectionText(ScSection) == "router" + ['.'] + ("sc" + ['.'])
    ensures SectionText(TailscaleSection) == "router" + ['.'] + ("tailscale" + ['.'])
  {
  }

  lemma {:induction false} RouterKeyText(f: Field)
    requires !SectionOf(f).WebSection? && !SectionOf(f).HubSection?
    ensures KeyText(f) == "router" + ['.'] + RouterRest(f)
  {
    var head, name := "router" + ['.'], NameText(f);
    SectionTexts();
    match SectionOf(f)
    case LanSection => Assoc(head, "lan" + ['.'], name);
    case ScSection => Assoc(head, "sc" + ['.'], name);
    case TailscaleSection => Assoc(head, "tailscale" + ['.'], name);
    case _ =>
  }

  lemma {:induction false} RouterKeyTable(key: string, f: Field)
    requires !SectionOf(f).WebSection? && !SectionOf(f).HubSection?
    ensures Target(key) == Some(f) <==>
            key == KeyText(f) || (SectionOf(f).RouterSection? && KeyText(f) + ['.'] <= key)
  {
    var head := "router" + ['.'];
    RouterKeys(key, f);
    RouterKeyText(f);
    Prefixed(key, head, RouterRest(f));
    Prefixed(key, head, RouterRest(f) + ['.']);
    assert head + RouterRest(f) + ['.'] == head + (RouterRest(f) + ['.']);
    if head <= key {
      RouterPaths(key[7..], f);
    }
  }

  /**
   The keys: a field is reached by its key text and by no other, except that anything may follow the text
   and a dot for the four fields directly under `router`.
   */
  lemma {:induction false} KeyTable(key: string, f: Field)
    ensures Target(key) == Some(f) <==>
            key == KeyText(f) || (SectionOf(f).RouterSection? && KeyText(f) + ['.'] <= key)
  {
    if SectionOf(f).WebSection? {
      SectionKeys(key, f);
      SplitIs(key, "web", NameText(f));
      assert "web" + ['.'] == "web.";
    } else if SectionOf(f).HubSection? {
      SectionKeys(key, f);
      SplitIs(key, "hub", NameText(f));
      assert "hub" + ['.'] == "hub.";
    } else {
      RouterKeyTable(key, f);
    }
  }

  // The same key by key, the section and the name as they are written.

  lemma {:induction false} WebKey(name: string, f: Field)
    requires SectionOf(f).WebSection? && name == NameText(f)
    ensures Target("web" + ['.'] + name) == Some(f)
  {
    SectionKeys("web" + ['.'] + name, f);
    SplitIs("web" + ['.'] + name, "web", name);
  }

  lemma {:induction false} HubKeyIs(name: string, f: Field)
    requires SectionOf(f).HubSection? && name == NameText(f)
    ensures Target("hub" + ['.'] + name) == Some(f)
  {
    SectionKeys("hub" + ['.'] + name, f);
    SplitIs("hub" + ['.'] + name, "hub", name);
  }

  lemma {:induction false} RouterKey(path: string, f: Field)
    requires SectionOf(f) in {RouterSection, LanSection, ScSection, TailscaleSection} && path == RouterRest(f)
    ensures Target("router" + ['.'] + path) == Some(f)
  {
    var key := "router" + ['.'] + path;
    assert key[7..] == path;
    RouterKeys(key, f);
    RouterPaths(path, f);
  }

  lemma {:induction false} WebKeyTexts()
    ensures Target("web" + ['.'] + "host") == Some(WebHost)
    ensures Target("web" + ['.'] + "port") == Some(WebPort)
    ensures Target("web" + ['.'] + "open_browser") == Some(OpenBrowser)
  {
    WebKey("host", WebHost);
    WebKey("port", WebPort);
    WebKey("open_browser", OpenBrowser);
  }

  lemma {:induction false} HubKeyTexts()
    ensures Target("hub" + ['.'] + "bind") == Some(HubBind)
    ensures Target("hub" + ['.'] + "cert") == Some(HubCert)
    ensures Target("hub" + ['.'] + "key") == Some(HubKey)
  {
    HubKeyIs("bind", HubBind);
    HubKeyIs("cert", HubCert);
    HubKeyIs("key", HubKey);
  }

  lemma {:induction false} AcmeKeyTexts()
    ensures Target("hub" + ['.'] + "acme_domain") == Some(AcmeDomain)
    ensures Target("hub" + ['.'] + "acme_cache") == Some(AcmeCache)
    ensures Target("hub" + ['.'] + "acme_production") == Some(AcmeProduction)
  {
    HubKeyIs("acme_domain", AcmeDomain);
    HubKeyIs("acme_cache", AcmeCache);
    HubKeyIs("acme_production", AcmeProduction);
  }

  lemma {:induction false} RouterKeyTexts()
    ensures Target("router" + ['.'] + "transport") == Some(Transport)
    ensures Target("router" + ['.'] + "device_id") == Some(DeviceId)
    ensures Target("router" + ['.'] + "vendor_id") == Some(VendorId)
    ensures Target("router" + ['.'] + "device_name") == Some(DeviceName)
  {
    RouterKey("transport", Transport);
    RouterKey("device_id", DeviceId);
    RouterKey("vendor_id", VendorId);
    RouterKey("device_name", DeviceName);
  }

  lemma {:induction false} LanAndTailscaleKeyTexts()
    ensures Target("router" + ['.'] + ("lan" + ['.'] + "interface")) == Some(LanInterface)
    ensures Target("router" + ['.'] + ("lan" + ['.'] + "port")) == Some(LanPort)
    ensures Target("router" + ['.'] + ("tailscale" + ['.'] + "interface")) == Some(TailscaleInterface)
    ensures Target("router" + ['.'] + ("tailscale" + ['.'] + "port")) == Some(TailscalePort)
  {
    RouterKey("lan" + ['.'] + "interface", LanInterface);
    RouterKey("lan" + ['.'] + "port", LanPort);
    RouterKey("tailscale" + ['.'] + "interface", TailscaleInterface);
    RouterKey("tailscale" + ['.'] + "port", TailscalePort);
  }

  lemma {:induction false} ScKey(name: string, f: Field)
    requires SectionOf(f).ScSection? && name == NameText(f)
    ensures Target("router" + ['.'] + ("sc" + ['.'] + name)) == Some(f)
  {
    RouterKey("sc" + ['.'] + name, f);
  }

  lemma {:induction false} HubUrlKeyText()
    ensures Target("router" + ['.'] + ("sc" + ['.'] + "hub_url")) == Some(HubUrl)
    ensures Target("router" + ['.'] + ("sc" + ['.'] + "danger_accept_invalid_certs")) == Some(DangerAcceptInvalidCerts)
  {
    ScKey("hub_url", HubUrl);
    ScKey("danger_accept_invalid_certs", DangerAcceptInvalidCerts);
  }

  lemma {:induction false} ReconnectKeyTexts()
    ensures Target("router" + ['.'] + ("sc" + ['.'] + "reconnect_initial_ms")) == Some(ReconnectInitialMs)
    ensures Target("router" + ['.'] + ("sc" + ['.'] + "reconnect_max_ms")) == Some(ReconnectMaxMs)
    ensures Target("router" + ['.'] + ("sc" + ['.'] + "reconnect_max_attempts")) == Some(ReconnectMaxAttempts)
  {
    ScKey("reconnect_initial_ms", ReconnectInitialMs);
    ScKey("reconnect_max_ms", ReconnectMaxMs);
    ScKey("reconnect_max_attempts", ReconnectMaxAttempts);
  }

  lemma {:induction false} CertKeyTexts()
    ensures Target("router" + ['.'] + ("sc" + ['.'] + "client_cert")) == Some(ClientCert)
    ensures Target("router" + ['.'] + ("sc" + ['.'] + "client_key")) == Some(ClientKey)
    ensures Target("router" + ['.'] + ("sc" + ['.'] + "ca_cert")) == Some(CaCert)
  {
    ScKey("client_cert", ClientCert);
    ScKey("client_key", ClientKey);
    ScKey("ca_cert", CaCert);
  }

  // What a text does to the field.

  /** Text fields take every text as it is; optional ones hold it. */
  lemma {:induction false} RouterTexts(c: BridgeConfig, s: string)
    ensures ApplyTo(c, Transport, s) == c.(router := c.router.(transport := s))
    ensures ApplyTo(c, DeviceName, s) == c.(router := c.router.(deviceName := s))
    ensures ApplyTo(c, LanInterface, s) == c.(router := c.router.(lan := c.router.lan.(interface := s)))
    ensures ApplyTo(c, TailscaleInterface, s) == c.(router := c.router.(tailscale := c.router.tailscale.(interface := s)))
    ensures ApplyTo(c, HubUrl, s) == c.(router := c.router.(sc := c.router.sc.(hubUrl := s)))
    ensures ApplyTo(c, ClientCert, s) == c.(router := c.router.(sc := c.router.sc.(clientCert := Some(s))))
    ensures ApplyTo(c, ClientKey, s) == c.(router := c.router.(sc := c.router.sc.(clientKey := Some(s))))
    ensures ApplyTo(c, CaCert, s) == c.(router := c.router.(sc := c.router.sc.(caCert := Some(s))))
  {
  }

  lemma {:induction false} WebAndHubTexts(c: BridgeConfig, s: string)
    ensures ApplyTo(c, WebHost, s) == c.(web := c.web.(host := s))
    ensures ApplyTo(c, HubBind, s) == c.(hub := c.hub.(bind := s))
    ensures ApplyTo(c, HubCert, s) == c.(hub := c.hub.(cert := Some(s)))
    ensures ApplyTo(c, HubKey, s) == c.(hub := c.hub.(key := Some(s)))
  {
  }

  lemma {:induction false} AcmeTexts(c: BridgeConfig, s: string)
    ensures ApplyTo(c, AcmeDomain, s) == c.(hub := c.hub.(acmeDomain := s))
    ensures ApplyTo(c, AcmeCache, s) == c.(hub := c.hub.(acmeCache := s))
  {
  }

  /** The configuration after a text is assigned to a field. */
  function ApplyTo(c: BridgeConfig, f: Field, s: string): BridgeConfig { Assigned(c, Some(f), s) }

  /** The printed numeral of n sets a number field exactly when n fits the field's machine integer. */
  lemma {:induction false} ShortNumbers(c: BridgeConfig, n: nat)
    ensures ApplyTo(c, VendorId, Show(n)) == if n <= 65535 then c.(router := c.router.(vendorId := n)) else c
    ensures ApplyTo(c, LanPort, Show(n))
         == if n <= 65535 then c.(router := c.router.(lan := c.router.lan.(port := n))) else c
    ensures ApplyTo(c, TailscalePort, Show(n))
         == if n <= 65535 then c.(router := c.router.(tailscale := c.router.tailscale.(port := n))) else c
    ensures ApplyTo(c, WebPort, Show(n)) == if n <= 65535 then c.(web := c.web.(port := n)) else c
  {
    ParseShow(n, 65535);
  }

  lemma {:induction false} WideNumbers(c: BridgeConfig, n: nat)
    ensures ApplyTo(c, DeviceId, Show(n)) == if n <= 4294967295 then c.(router := c.router.(deviceId := n)) else c
    ensures ApplyTo(c, ReconnectMaxAttempts, Show(n))
         == if n <= 4294967295 then c.(router := c.router.(sc := c.router.sc.(reconnectMaxAttempts := n))) else c
    ensures ApplyTo(c, ReconnectInitialMs, Show(n))
         == if n <= 18446744073709551615 then c.(router := c.router.(sc := c.router.sc.(reconnectInitialMs := n))) else c
    ensures ApplyTo(c, ReconnectMaxMs, Show(n))
         == if n <= 18446744073709551615 then c.(router := c.router.(sc := c.router.sc.(reconnectMaxMs := n))) else c
  {
    ParseShow(n, 4294967295);
    ParseShow(n, 18446744073709551615);
  }

  /** A text that is no numeral leaves a number field alone. */
  lemma {:induction false} NoNumeral(c: BridgeConfig, f: Field, s: string)
    requires f in {VendorId, LanPort, TailscalePort, WebPort, DeviceId, ReconnectMaxAttempts, ReconnectInitialMs, ReconnectMaxMs}
    requires s == "" || exists i | 0 <= i < |s| :: !IsDigit(s[i]) && (i > 0 || s[i] != '+')
    ensures ApplyTo(c, f, s) == c
  {
    if i :| 0 <= i < |s| && !IsDigit(s[i]) && (i > 0 || s[i] != '+') {
      var digits := StripPlus(s);
      assert digits == s || digits[i - 1] == s[i];
    }
  }

  /** Flags take the two words and nothing else; only the certificate check takes any text, and 1 for true. */
  lemma {:induction false} FlagFields(c: BridgeConfig, s: string)
    ensures ApplyTo(c, OpenBrowser, s)
         == if s == "true" || s == "false" then c.(web := c.web.(openBrowser := s == "true")) else c
    ensures ApplyTo(c, AcmeProduction, s)
         == if s == "true" || s == "false" then c.(hub := c.hub.(acmeProduction := s == "true")) else c
    ensures ApplyTo(c, DangerAcceptInvalidCerts, s)
         == c.(router := c.router.(sc := c.router.sc.(dangerAcceptInvalidCerts := s == "true" || s == "1")))
  {
  }

  /** So an override does what its key text says, and a key that is in no such form does nothing. */
  lemma {:induction false} KeyDecides(c: BridgeConfig, key: string, s: string)
    ensures forall f: Field | key == KeyText(f) || (SectionOf(f).RouterSection? && KeyText(f) + ['.'] <= key) ::
              ApplyOne(c, key, s) == ApplyTo(c, f, s)
    ensures (forall f: Field :: key != KeyText(f) && !(SectionOf(f).RouterSection? && KeyText(f) + ['.'] <= key)) ==>
              ApplyOne(c, key, s) == c
  {
    forall f: Field
      ensures Target(key) == Some(f) <==> key == KeyText(f) || (SectionOf(f).RouterSection? && KeyText(f) + ['.'] <= key)
    {
      KeyTable(key, f);
    }
  }
}
