/** board_def.py and ir_codegen.py: a board definition's pins are checked as text and packed as numbers;
  * the check is what keeps the packed pins valid and distinct. */
module BoardPins {
  import opened Bytes
  import opened Digits
  import HexImage

  /** Port 0 is A. */
  datatype Packed = Packed(port: nat, num: nat)

  /** `P([A-K])(1[0-5]|[0-9])` */
  predicate IsPin(token: string) {
    && 3 <= |token| <= 4 && token[0] == 'P' && 'A' <= token[1] <= 'K' && IsDigit(token[2])
    && (|token| == 4 ==> token[2] == '1' && '0' <= token[3] <= '5')
  }

  /** `P([A-K])(\d{1,2})` */
  predicate LooksLikePin(token: string) {
    && 3 <= |token| <= 4 && token[0] == 'P' && 'A' <= token[1] <= 'K' && IsDigit(token[2])
    && (|token| == 4 ==> IsDigit(token[3]))
  }

  /** `_pin_pack`; `None` is HAL_PIN_INVALID. */
  function PinPack(token: string): Option<Packed> {
    var t := HexImage.Strip(token);
    if !LooksLikePin(t) then None
    else if NumberOf(t[2..]) > 15 then None
    else Some(Packed((t[1] - 'A') as nat, NumberOf(t[2..])))
  }

  lemma PinCharsAreNoSpace(c: char)
    requires c == 'P' || IsDigit(c)
    ensures !HexImage.IsSpaceChar(c)
  {
  }

  lemma PinStrips(token: string)
    requires LooksLikePin(token)
    ensures HexImage.Strip(token) == token
  {
    hide HexImage.IsSpaceChar;
    PinCharsAreNoSpace(token[0]);
    PinCharsAreNoSpace(token[|token| - 1]);
  }

  lemma OneDigit(d: string)
    requires |d| == 1 && IsDigit(d[0])
    ensures NumberOf(d) == (d[0] - '0') as nat
  {
    assert d[..0] == "";
  }

  lemma TwoDigits(d: string)
    requires |d| == 2 && IsDigit(d[0]) && IsDigit(d[1])
    ensures NumberOf(d) == 10 * (d[0] - '0') as nat + (d[1] - '0') as nat
  {
    OneDigit(d[..1]);
  }

  lemma PinNumber(token: string)
    requires LooksLikePin(token)
    ensures NumberOf(token[2..]) ==
      if |token| == 3 then (token[2] - '0') as nat else 10 * (token[2] - '0') as nat + (token[3] - '0') as nat
  {
    if |token| == 3 { OneDigit(token[2..]); } else { TwoDigits(token[2..]); }
  }

  /** The packed pin is the one the token spells: the port its letter names, counted from A, and the
    * number its one or two digits read. */
  predicate Spells(token: string, p: Packed)
    requires LooksLikePin(token)
  {
    && p.port == (token[1] - 'A') as nat
    && p.num == if |token| == 3 then (token[2] - '0') as nat
                else 10 * (token[2] - '0') as nat + (token[3] - '0') as nat
  }

  /** A pin token packs to the pin it spells, which is valid. */
  lemma PinPacks(token: string)
    requires IsPin(token)
    ensures PinPack(token).Some? && Spells(token, PinPack(token).value)
    ensures PinPack(token).value.port <= 10 && PinPack(token).value.num <= 15
  {
    PinStrips(token);
    PinNumber(token);
  }

  /** Every pin of the ports A to K is the pin of an accepted token. */
  lemma EveryPinHasToken(port: nat, num: nat) returns (token: string)
    requires port <= 10 && num <= 15
    ensures IsPin(token) && PinPack(token) == Some(Packed(port, num))
  {
    var letter := 'A' + port as char;
    token := if num < 10 then ['P', letter, '0' + num as char] else ['P', letter, '1', '0' + (num - 10) as char];
    PinPacks(token);
  }

  /** Different pin tokens pack to different pins. */
  lemma PackingKeepsApart(a: string, b: string)
    requires IsPin(a) && IsPin(b) && PinPack(a) == PinPack(b)
    ensures a == b
  {
    hide HexImage.Strip;
    PinStrips(a);
    PinStrips(b);
    PinNumber(a);
    PinNumber(b);
    assert a[1] == b[1];
    if |a| == |b| == 3 {
      assert a == ['P', a[1], a[2]] && b == ['P', b[1], b[2]];
    } else if |a| == |b| == 4 {
      assert a == ['P', a[1], a[2], a[3]] && b == ['P', b[1], b[2], b[3]];
    }
  }

  /** Of the tokens the packer accepts, exactly the pin tokens are the ones the checker accepts: the
    * others repeat a pin with a leading zero. */
  lemma OnlyLeadingZerosAreRefused(token: string)
    requires LooksLikePin(token) && PinPack(token).Some?
    ensures IsPin(token) <==> !(|token| == 4 && token[2] == '0')
    ensures !IsPin(token) ==> IsPin(token[..2] + token[3..]) && PinPack(token[..2] + token[3..]) == PinPack(token)
  {
    hide HexImage.Strip;
    PinStrips(token);
    PinNumber(token);
    if |token| == 4 && token[2] == '0' {
      var short := token[..2] + token[3..];
      assert LooksLikePin(short) && IsPin(short);
      PinStrips(short);
      PinNumber(short);
    }
  }

  /** A claim of a pin by its owner. */
  datatype Claim = Claim(owner: string, pin: string)

  predicate PortsExist(claims: seq<Claim>, ports: set<char>) {
    forall i :: 0 <= i < |claims| ==> IsPin(claims[i].pin) && claims[i].pin[1] in ports
  }

  predicate PinsDiffer(claims: seq<Claim>) {
    forall i, j :: 0 <= i < j < |claims| ==> claims[i].pin != claims[j].pin
  }

  /** The duplicate-pin loop of `validate`, over pins already checked one by one. */
  method CheckPins(claims: seq<Claim>, ports: set<char>) returns (ok: bool)
    requires forall i :: 0 <= i < |claims| ==> IsPin(claims[i].pin)
    ensures ok <==> PortsExist(claims, ports) && PinsDiffer(claims)
  {
    var seen: map<string, string> := map[];
    var n := 0;
    while n < |claims|
      invariant 0 <= n <= |claims|
      invariant PortsExist(claims[..n], ports) && PinsDiffer(claims[..n])
      invariant forall pin :: pin in seen <==> exists i :: 0 <= i < n && claims[i].pin == pin
    {
      var claim := claims[n];
      if claim.pin[1] !in ports { return false; }
      if claim.pin in seen { return false; }
      seen := seen[claim.pin := claim.owner];
      n := n + 1;
    }
    assert claims[..n] == claims;
    return true;
  }

  /** What `render` writes for accepted claims: every pin is the one its token spells, valid and on a
    * port of the part, and no two owners share one. */
  lemma CheckedPinsStayApart(claims: seq<Claim>, ports: set<char>)
    requires PortsExist(claims, ports) && PinsDiffer(claims)
    ensures forall i :: 0 <= i < |claims| ==> PinPack(claims[i].pin).Some? && PinPack(claims[i].pin).value.num <= 15
    ensures forall i :: 0 <= i < |claims| ==>
              claims[i].pin[1] in ports && Spells(claims[i].pin, PinPack(claims[i].pin).value)
    ensures forall i, j :: 0 <= i < j < |claims| ==> PinPack(claims[i].pin) != PinPack(claims[j].pin)
  {
    hide PinPack, Spells;
    forall i | 0 <= i < |claims|
      ensures PinPack(claims[i].pin).Some? && PinPack(claims[i].pin).value.num <= 15
      ensures claims[i].pin[1] in ports && Spells(claims[i].pin, PinPack(claims[i].pin).value)
    {
      PinPacks(claims[i].pin);
    }
    forall i, j | 0 <= i < j < |claims| ensures PinPack(claims[i].pin) != PinPack(claims[j].pin) {
      if PinPack(claims[i].pin) == PinPack(claims[j].pin) { PackingKeepsApart(claims[i].pin, claims[j].pin); }
    }
  }
}
