/** Dotted IPv4 addresses: how the table prints them and how the BBMD transport parses them. */
module Ipv4 {
  import opened Prelude
  import opened Decimal
  import opened Text

  /** Four octets, in order. */
  type Octets = ip: Bytes | |ip| == 4 witness [0, 0, 0, 0]

  datatype AddressError = InvalidFormat(text: string) | InvalidOctet(part: string)

  /** `{}.{}.{}.{}` over the four octets. */
  function Dotted(ip: Octets): string
  {
    Show(ip[0]) + "." + Show(ip[1]) + "." + Show(ip[2]) + "." + Show(ip[3])
  }

  function ParseOctet(part: string): Result<byte, AddressError>
  {
    match ParseUnsigned(part, 255)
    case None => Err(InvalidOctet(part))
    case Some(n) => Ok(n)
  }

  /** What it means for a text to denote an address. */
  predicate Denotes(s: string, ip: Octets)
  {
    var parts := Split(s, '.');
    |parts| == 4 && forall k | 0 <= k < 4 :: ParseOctet(parts[k]) == Ok(ip[k])
  }

  function ParseAddress(s: string): Result<Octets, AddressError>
  {
    var parts := Split(s, '.');
    if |parts| != 4 then Err(InvalidFormat(s)) else Collect(ParseOctet, parts)
  }

  /** Parsing accepts exactly the texts that denote an address. */
  lemma {:induction false} ParseAccepts(s: string, ip: Octets)
    ensures ParseAddress(s) == Ok(ip) <==> Denotes(s, ip)
  {
    var parts := Split(s, '.');
    if Denotes(s, ip) {
      var other := Collect(ParseOctet, parts);
      assert forall k | 0 <= k < 4 :: ParseOctet(parts[k]) == Ok(ip[k]) && ParseOctet(parts[k]) == Ok(other.value[k]);
      assert other.value == ip;
    }
  }

  /** The errors: not four parts, or the first part that is no octet. */
  lemma {:induction false} ParseErrors(s: string)
    ensures |Split(s, '.')| != 4 ==> ParseAddress(s) == Err(InvalidFormat(s))
    ensures forall i | |Split(s, '.')| == 4 && 0 <= i < 4 && ParseOctet(Split(s, '.')[i]).Err?
                       && (forall k | 0 <= k < i :: ParseOctet(Split(s, '.')[k]).Ok?) ::
              ParseAddress(s) == Err(InvalidOctet(Split(s, '.')[i]))
  {
  }

  method ParseIpv4(s: string) returns (r: Result<Octets, AddressError>)
    ensures r == ParseAddress(s)
  {
    var parts := Split(s, '.');
    if |parts| != 4 {
      return Err(InvalidFormat(s));
    }
    var ip: seq<byte> := [0, 0, 0, 0];
    for i := 0 to |parts|
      invariant |ip| == 4
      invariant forall k | 0 <= k < i :: ParseOctet(parts[k]) == Ok(ip[k])
    {
      var octet := ParseOctet(parts[i]);
      if octet.Err? {
        return Err(octet.error);
      }
      ip := ip[i := octet.value];
    }
    ParseAccepts(s, ip);
    r := Ok(ip);
  }

  lemma {:induction false} ShowHasNoDot(n: nat)
    ensures !Contains(Show(n), '.')
  {
    ShowValue(n);
  }

  /** The printed form denotes the address it was printed from, and no other. */
  lemma {:induction false} DottedRoundTrip(ip: Octets)
    ensures Denotes(Dotted(ip), ip)
    ensures ParseAddress(Dotted(ip)) == Ok(ip)
  {
    var parts := [Show(ip[0]), Show(ip[1]), Show(ip[2]), Show(ip[3])];
    forall i | 0 <= i < 4
      ensures !Contains(parts[i], '.') && ParseOctet(parts[i]) == Ok(ip[i])
    {
      assert parts[i] == Show(ip[i]);
      ShowHasNoDot(ip[i]);
      ParseShow(ip[i], 255);
    }
    DottedJoin(ip, parts);
    JoinSplit(parts, '.');
    ParseAccepts(Dotted(ip), ip);
  }

  lemma {:induction false} DottedJoin(ip: Octets, parts: seq<string>)
    requires parts == [Show(ip[0]), Show(ip[1]), Show(ip[2]), Show(ip[3])]
    ensures Join(parts, '.') == Dotted(ip)
  {
    assert parts[1..][1..] == parts[2..] && parts[2..][1..] == parts[3..];
    assert Join(parts[3..], '.') == parts[3];
    assert Join(parts[2..], '.') == parts[2] + "." + parts[3];
    assert Join(parts[1..], '.') == parts[1] + "." + (parts[2] + "." + parts[3]);
  }

  /** Four dot-free numerals of the four octets, joined by dots. */
  predicate Spells(parts: seq<string>, s: string, ip: Octets)
    requires |parts| == 4
  {
    && s == Join(parts, '.')
    && (forall k | 0 <= k < 4 :: ParseOctet(parts[k]) == Ok(ip[k]))
    && (forall k | 0 <= k < 4 :: !Contains(parts[k], '.'))
  }

  /** An accepted text is four dot-free numerals of 0..255 joined by dots: nothing else is accepted. */
  lemma {:induction false} AcceptedShape(s: string, ip: Octets)
    ensures Denotes(s, ip) <==>
            exists parts: seq<string> :: |parts| == 4 && Spells(parts, s, ip)
  {
    SplitJoin(s, '.');
    if Denotes(s, ip) {
      assert Spells(Split(s, '.'), s, ip);
    }
    if parts: seq<string> :| |parts| == 4 && Spells(parts, s, ip) {
      JoinSplit(parts, '.');
    }
  }

  // The broadcast distribution table.

  datatype BdtEntry = BdtEntry(ip: string, port: u16, broadcastMask: Octets)
  datatype BbmdBdtEntry = BbmdBdtEntry(ip: Octets, port: u16, broadcastMask: Octets)

  /** One configured entry against its converted form. */
  predicate Converted(entry: BdtEntry, bbmd: BbmdBdtEntry)
  {
    Denotes(entry.ip, bbmd.ip) && bbmd.port == entry.port && bbmd.broadcastMask == entry.broadcastMask
  }

  function ConvertBdtEntry(entry: BdtEntry): (r: Result<BbmdBdtEntry, AddressError>)
    ensures r.Ok? ==> Converted(entry, r.value)
    ensures r.Err? ==> forall ip: Octets :: !Denotes(entry.ip, ip)
  {
    match ParseAddress(entry.ip)
    case Ok(ip) => ParseAccepts(entry.ip, ip); Ok(BbmdBdtEntry(ip, entry.port, entry.broadcastMask))
    case Err(e) =>
      assert forall ip: Octets :: !Denotes(entry.ip, ip) by {
        forall ip: Octets ensures !Denotes(entry.ip, ip) { ParseAccepts(entry.ip, ip); }
      }
      Err(e)
  }

  /** Mapping the conversion over the table and collecting. */
  function ConvertBdt(bdt: seq<BdtEntry>): Result<seq<BbmdBdtEntry>, AddressError> { Collect(ConvertBdtEntry, bdt) }

  ghost predicate IsAddress(s: string) { exists ip: Octets :: Denotes(s, ip) }

  lemma {:induction false} EntryConverts(entry: BdtEntry)
    ensures ConvertBdtEntry(entry).Ok? <==> IsAddress(entry.ip)
    ensures ConvertBdtEntry(entry).Err? ==> ParseAddress(entry.ip) == Err(ConvertBdtEntry(entry).error)
  {
    if ip: Octets :| Denotes(entry.ip, ip) {
      ParseAccepts(entry.ip, ip);
    }
  }

  /**
   A table converts exactly when every entry's text denotes an address, and then entry by entry, in order;
   otherwise the error is that of the first entry whose text does not.
   */
  lemma {:induction false} BdtConversion(bdt: seq<BdtEntry>)
    ensures ConvertBdt(bdt).Ok? <==> forall i | 0 <= i < |bdt| :: IsAddress(bdt[i].ip)
    ensures ConvertBdt(bdt).Ok? ==> |ConvertBdt(bdt).value| == |bdt|
    ensures ConvertBdt(bdt).Ok? ==> forall i | 0 <= i < |bdt| :: Converted(bdt[i], ConvertBdt(bdt).value[i])
    ensures ConvertBdt(bdt).Err? ==> exists i | 0 <= i < |bdt| ::
                && ParseAddress(bdt[i].ip) == Err(ConvertBdt(bdt).error)
                && (forall k | 0 <= k < i :: IsAddress(bdt[k].ip))
  {
    forall i | 0 <= i < |bdt|
      ensures ConvertBdtEntry(bdt[i]).Ok? <==> IsAddress(bdt[i].ip)
      ensures ConvertBdtEntry(bdt[i]).Err? ==> ParseAddress(bdt[i].ip) == Err(ConvertBdtEntry(bdt[i]).error)
    {
      EntryConverts(bdt[i]);
    }
    var r := ConvertBdt(bdt);
    if r.Ok? {
      forall i | 0 <= i < |bdt|
        ensures Converted(bdt[i], r.value[i])
      {
        assert ConvertBdtEntry(bdt[i]) == Ok(r.value[i]);
      }
    } else {
      assert ConvertBdtEntry(bdt[FirstError(ConvertBdtEntry, bdt, 0)]) == Err(r.error);
    }
  }
}
