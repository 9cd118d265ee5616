/** Phone numbers as WhatsApp ids and back. */
module PhoneNumbers {
  import opened JsMaps
  import opened Text

  predicate IsDigit(c: char) {
    '0' <= c <= '9'
  }

  predicate AllDigits(s: string) {
    forall c :: c in s ==> IsDigit(c)
  }

  function KeepOne(c: char, plus: bool): string {
    if IsDigit(c) || (plus && c == '+') then [c] else []
  }

  /** Drops every character but digits and, with `plus`, the plus sign. */
  function Keep(s: string, plus: bool): string {
    if s == [] then [] else KeepOne(s[0], plus) + Keep(s[1..], plus)
  }

  const PREFIX := "whatsapp:"

  function WithoutPrefix(s: string): string {
    Trim(if PREFIX <= s then s[|PREFIX|..] else s)
  }

  function NormalizeE164(number: string): string {
    var digits := Keep(WithoutPrefix(number), true);
    if digits != [] && digits[0] == '+' then "+" + digits[1..] else "+" + digits
  }

  function ToWhatsappJid(number: string): string {
    var bare := WithoutPrefix(number);
    if '@' in bare then bare else Keep(NormalizeE164(bare), false) + "@s.whatsapp.net"
  }

  // ---- reading an id: ^(\d+)(?::\d+)?@(server)$ ----

  function DigitCount(s: string): (n: nat)
    ensures n <= |s| && AllDigits(s[..n]) && (n < |s| ==> !IsDigit(s[n]))
  {
    if s == [] || !IsDigit(s[0]) then 0 else 1 + DigitCount(s[1..])
  }

  function AfterDevice(rest: string): string {
    var n := if rest != [] && rest[0] == ':' then DigitCount(rest[1..]) else 0;
    if n > 0 then rest[1 + n..] else rest
  }

  /** The digits and the server part of an id; a device suffix is skipped. */
  function ParseJid(jid: string): Option<(string, string)> {
    var n := DigitCount(jid);
    var server := AfterDevice(jid[n..]);
    if n == 0 || server == [] || server[0] != '@' then None else Some((jid[..n], server[1..]))
  }

  /** `lid` is what the linked-id mapping files answer. */
  function JidToE164(jid: string, lid: string -> Option<string>): Option<string> {
    match ParseJid(jid)
    case None => None
    case Some((digits, server)) =>
      if server == "s.whatsapp.net" || server == "hosted" then Some("+" + digits)
      else if server == "lid" || server == "hosted.lid" then lid(digits)
      else None
  }

  function Suffix(device: string): string {
    if device == [] then [] else ":" + device
  }

  /** What the pattern matches, with or without a device suffix. */
  ghost predicate Matches(jid: string, digits: string, device: string, server: string) {
    && digits != [] && AllDigits(digits) && AllDigits(device)
    && jid == digits + (Suffix(device) + ("@" + server))
  }

  lemma {:induction false} CountDigits(d: string, rest: string)
    requires AllDigits(d) && (rest == [] || !IsDigit(rest[0]))
    ensures DigitCount(d + rest) == |d|
  {
    if d == [] {
      assert d + rest == rest;
    } else {
      assert d[0] in d && (d + rest)[1..] == d[1..] + rest;
      CountDigits(d[1..], rest);
    }
  }

  lemma SkipsDevice(device: string, server: string)
    requires AllDigits(device)
    ensures AfterDevice(Suffix(device) + ("@" + server)) == "@" + server
  {
    if device == [] {
      assert Suffix(device) + ("@" + server) == "@" + server;
    } else {
      CountDigits(device, "@" + server);
      assert (":" + device + ("@" + server))[1..] == device + ("@" + server);
    }
  }

  lemma FindsDevice(rest: string) returns (device: string)
    ensures AllDigits(device) && rest == Suffix(device) + AfterDevice(rest)
  {
    var n := if rest != [] && rest[0] == ':' then DigitCount(rest[1..]) else 0;
    device := if n > 0 then rest[1..][..n] else [];
    if n > 0 { assert rest == [rest[0]] + rest[1..][..n] + rest[1 + n..]; }
  }

  lemma ParseMatched(jid: string, digits: string, device: string, server: string)
    requires Matches(jid, digits, device, server)
    ensures ParseJid(jid) == Some((digits, server))
  {
    hide AfterDevice, IsDigit, AllDigits, DigitCount;
    var tail := Suffix(device) + ("@" + server);
    TailStarts(device, server);
    CountDigits(digits, tail);
    assert jid[|digits|..] == tail && jid[..|digits|] == digits;
    SkipsDevice(device, server);
  }

  lemma TailStarts(device: string, server: string)
    ensures var tail := Suffix(device) + ("@" + server); tail != [] && !IsDigit(tail[0])
  {
  }

  /** Reading an id finds exactly what the pattern matches. */
  lemma ParsesExactly(jid: string, digits: string, server: string)
    ensures ParseJid(jid) == Some((digits, server)) <==> exists device :: Matches(jid, digits, device, server)
  {
    hide AfterDevice, IsDigit, DigitCount, Suffix;
    if ParseJid(jid) == Some((digits, server)) {
      var n := DigitCount(jid);
      var device := FindsDevice(jid[n..]);
      assert jid == jid[..n] + jid[n..];
      assert AfterDevice(jid[n..]) == "@" + server;
      assert Matches(jid, digits, device, server);
    }
    hide ParseJid, Matches;
    if device :| Matches(jid, digits, device, server) {
      ParseMatched(jid, digits, device, server);
    }
  }

  // ---- prefixes and blanks do not matter ----

  lemma KeepFirst(s: string, plus: bool)
    requires s != []
    ensures Keep(s, plus) == KeepOne(s[0], plus) + Keep(s[1..], plus)
  {
  }

  lemma {:induction false} KeepConcat(a: string, b: string, plus: bool)
    ensures Keep(a + b, plus) == Keep(a, plus) + Keep(b, plus)
  {
    hide Keep, KeepOne;
    if a == [] {
      assert a + b == b;
      KeepNothing(a, plus);
    } else {
      assert (a + b)[1..] == a[1..] + b;
      KeepFirst(a, plus);
      KeepFirst(a + b, plus);
      KeepConcat(a[1..], b, plus);
    }
  }

  lemma {:induction false} KeepNothing(s: string, plus: bool)
    requires forall c :: c in s ==> !IsDigit(c) && c != '+'
    ensures Keep(s, plus) == []
  {
    if s != [] {
      assert s[0] in s;
      KeepNothing(s[1..], plus);
    }
  }

  lemma {:induction false} KeepAll(s: string, plus: bool)
    requires forall c :: c in s ==> IsDigit(c) || (plus && c == '+')
    ensures Keep(s, plus) == s
  {
    if s != [] {
      assert s[0] in s && s == [s[0]] + s[1..];
      KeepAll(s[1..], plus);
    }
  }

  lemma {:induction false} KeptOnly(s: string, plus: bool)
    ensures forall c :: c in Keep(s, plus) ==> IsDigit(c) || (plus && c == '+')
  {
    if s != [] { KeptOnly(s[1..], plus); }
  }

  /** The digits are the kept characters without the plus signs. */
  lemma {:induction false} KeepTwice(s: string, plus: bool)
    ensures Keep(Keep(s, true), plus) == Keep(s, plus)
  {
    if s != [] {
      KeepTwice(s[1..], plus);
      KeepConcat(KeepOne(s[0], true), Keep(s[1..], true), plus);
    }
  }

  lemma SpaceIsDropped(s: string)
    requires forall c :: c in s ==> IsSpace(c)
    ensures forall c :: c in s ==> !IsDigit(c) && c != '+'
  {
  }

  lemma KeepTrim(s: string, plus: bool)
    ensures Keep(Trim(s), plus) == Keep(s, plus)
  {
    hide IsSpace, IsDigit, Keep, TrimEnd, TrimStart;
    var t := TrimStart(s);
    var a, core, b := s[..|s| - |t|], Trim(s), t[|Trim(s)|..];
    TrimSplits(s);
    SpaceIsDropped(a);
    SpaceIsDropped(b);
    KeepNothing(a, plus);
    KeepNothing(b, plus);
    KeepConcat(a + core, b, plus);
    KeepConcat(a, core, plus);
  }

  lemma KeepWithoutPrefix(s: string, plus: bool)
    ensures Keep(WithoutPrefix(s), plus) == Keep(s, plus)
  {
    hide Keep, Trim;
    var rest := if PREFIX <= s then s[|PREFIX|..] else s;
    KeepTrim(rest, plus);
    if PREFIX <= s {
      assert s == PREFIX + rest;
      KeepConcat(PREFIX, rest, plus);
      PrefixIsDropped(plus);
    }
  }

  lemma PrefixIsDropped(plus: bool)
    ensures Keep(PREFIX, plus) == []
  {
    KeepNothing(PREFIX, plus);
  }

  // ---- the laws ----

  /** What follows the plus sign of a normalised number. */
  function AfterPlus(kept: string): string {
    if kept != [] && kept[0] == '+' then kept[1..] else kept
  }

  /** Normalising is choosing the kept characters and one leading plus sign. */
  lemma NormalIs(number: string)
    ensures NormalizeE164(number) == "+" + AfterPlus(Keep(number, true))
  {
    hide Keep, WithoutPrefix;
    KeepWithoutPrefix(number, true);
  }

  lemma PlusIsNoDigit()
    ensures Keep("+", false) == []
  {
  }

  lemma DigitsAfterPlus(number: string)
    ensures Keep(AfterPlus(Keep(number, true)), false) == Keep(number, false)
  {
    hide Keep;
    var kept := Keep(number, true);
    KeepTwice(number, false);
    if kept != [] && kept[0] == '+' {
      assert kept == "+" + kept[1..];
      KeepConcat("+", kept[1..], false);
      PlusIsNoDigit();
    }
  }

  lemma NormalDigits(number: string)
    ensures Keep(NormalizeE164(number), false) == Keep(number, false)
  {
    hide Keep, NormalizeE164, AfterPlus;
    NormalIs(number);
    DigitsAfterPlus(number);
    KeepConcat("+", AfterPlus(Keep(number, true)), false);
    PlusIsNoDigit();
  }

  /** Normalising a normalised number changes nothing. */
  lemma NormalizeTwice(number: string)
    ensures NormalizeE164(NormalizeE164(number)) == NormalizeE164(number)
  {
    hide Keep, NormalizeE164;
    var once := NormalizeE164(number);
    NormalIs(number);
    NormalIs(once);
    KeptOnly(number, true);
    KeepAll(once, true);
  }

  /** A number may come with the channel's prefix or without. */
  lemma PrefixDoesNotMatter(number: string)
    requires !(PREFIX <= number)
    ensures NormalizeE164("whatsapp:" + number) == NormalizeE164(number)
    ensures ToWhatsappJid("whatsapp:" + number) == ToWhatsappJid(number)
  {
    hide Trim, Keep;
    assert ("whatsapp:" + number)[9..] == number;
  }

  lemma JidIs(number: string)
    requires '@' !in WithoutPrefix(number)
    ensures ToWhatsappJid(number) == Keep(number, false) + "@s.whatsapp.net"
  {
    hide Keep, NormalizeE164, WithoutPrefix;
    NormalDigits(WithoutPrefix(number));
    KeepWithoutPrefix(number, false);
  }

  lemma ReadDigits(digits: string, lid: string -> Option<string>)
    requires AllDigits(digits)
    ensures JidToE164(digits + "@s.whatsapp.net", lid) == if digits == [] then None else Some("+" + digits)
  {
    if digits != [] {
      var jid := digits + "@s.whatsapp.net";
      assert jid == digits + (Suffix([]) + ("@" + "s.whatsapp.net"));
      ParseMatched(jid, digits, [], "s.whatsapp.net");
    }
  }

  predicate OnlyLeadingPlus(kept: string) {
    kept == [] || '+' !in kept[1..]
  }

  lemma OnlyDigitsLeft(kept: string)
    requires forall c :: c in kept ==> IsDigit(c) || c == '+'
    ensures Keep(AfterPlus(kept), false) == AfterPlus(kept) <==> OnlyLeadingPlus(kept)
  {
    hide Keep;
    var rest := AfterPlus(kept);
    KeptOnly(rest, false);
    if OnlyLeadingPlus(kept) {
      KeepAll(rest, false);
    } else {
      assert '+' in rest;
    }
  }

  lemma PlainRoundTrip(number: string, lid: string -> Option<string>)
    requires '@' !in WithoutPrefix(number)
    ensures JidToE164(ToWhatsappJid(number), lid) == Some(NormalizeE164(number)) <==>
      Keep(number, false) != [] && OnlyLeadingPlus(Keep(number, true))
  {
    hide *;
    var digits, kept := Keep(number, false), Keep(number, true);
    JidIs(number);
    NormalIs(number);
    DigitsAfterPlus(number);
    KeptOnly(number, true);
    KeptOnly(number, false);
    OnlyDigitsLeft(kept);
    DigitsAre(digits);
    ReadDigits(digits, lid);
    SamePlus(digits, AfterPlus(kept));
  }

  /** What is kept of an id: its digits and those of the device suffix. */
  lemma KeptOfJid(jid: string, digits: string, device: string, server: string)
    requires Matches(jid, digits, device, server) && (server == "s.whatsapp.net" || server == "hosted")
    ensures AfterPlus(Keep(jid, true)) == digits + device
  {
    hide Keep, IsDigit;
    KeepConcat(digits, Suffix(device) + ("@" + server), true);
    KeepConcat(Suffix(device), "@" + server, true);
    KeepNothing("@" + server, true) by { ServersHaveNoDigits(server); }
    KeepAll(digits, true);
    KeepAll(device, true);
    if device == [] {
      KeepNothing([], true);
    } else {
      KeepConcat(":", device, true);
      ServersHaveNoDigits(server);
      KeepNothing(":", true);
    }
    assert digits[0] in digits;
    PlusIsNotDigit();
  }

  lemma PlusIsNotDigit()
    ensures !IsDigit('+')
  {
  }

  lemma ServersHaveNoDigits(server: string)
    requires server == "s.whatsapp.net" || server == "hosted"
    ensures forall c :: c in "@" + server ==> !IsDigit(c) && c != '+'
    ensures forall c :: c in ":" ==> !IsDigit(c) && c != '+'
  {
  }

  predicate IsPhoneServer(server: string) {
    server == "s.whatsapp.net" || server == "hosted"
  }

  /** An id of a phone number, passed through and read back, is the normalised number exactly when it names no device:
      normalising runs the device's digits into the number's. */
  lemma PhoneIdRoundTrip(number: string, digits: string, server: string, lid: string -> Option<string>)
    requires '@' in WithoutPrefix(number) && ParseJid(WithoutPrefix(number)) == Some((digits, server)) && IsPhoneServer(server)
    ensures JidToE164(ToWhatsappJid(number), lid) == Some(NormalizeE164(number)) <==>
      WithoutPrefix(number) == digits + ("@" + server)
  {
    hide Keep, WithoutPrefix, ParseJid, NormalizeE164;
    var bare := WithoutPrefix(number);
    ParsesExactly(bare, digits, server);
    var device :| Matches(bare, digits, device, server);
    KeptOfJid(bare, digits, device, server);
    NormalIs(number);
    KeepWithoutPrefix(number, true);
    SamePlus(digits, digits + device);
    if device == [] {
      assert Suffix(device) + ("@" + server) == "@" + server;
    } else {
      assert |bare| > |digits + ("@" + server)|;
    }
  }

  /** When writing a number as a WhatsApp id and reading it back gives the normalised number. A number that is not an id
      needs a digit and, among its digits and plus signs, no plus sign after the first. An id is passed through: one of a
      phone number must name no device, and one of a linked identity is looked up. */
  predicate RoundTrips(number: string, lid: string -> Option<string>) {
    var bare := WithoutPrefix(number);
    if '@' !in bare then Keep(number, false) != [] && OnlyLeadingPlus(Keep(number, true))
    else match ParseJid(bare)
      case None => false
      case Some((digits, server)) =>
        if IsPhoneServer(server) then bare == digits + ("@" + server)
        else (server == "lid" || server == "hosted.lid") && lid(digits) == Some(NormalizeE164(number))
  }

  lemma RoundTripsExactly(number: string, lid: string -> Option<string>)
    ensures JidToE164(ToWhatsappJid(number), lid) == Some(NormalizeE164(number)) <==> RoundTrips(number, lid)
  {
    hide Keep, WithoutPrefix, ParseJid, NormalizeE164;
    var bare := WithoutPrefix(number);
    if '@' !in bare {
      PlainRoundTrip(number, lid);
    } else if ParseJid(bare).Some? && IsPhoneServer(ParseJid(bare).value.1) {
      PhoneIdRoundTrip(number, ParseJid(bare).value.0, ParseJid(bare).value.1, lid);
    }
  }

  lemma DigitsAre(s: string)
    requires forall c :: c in s ==> IsDigit(c) || (false && c == '+')
    ensures AllDigits(s)
  {
  }

  lemma SamePlus(a: string, b: string)
    ensures "+" + a == "+" + b <==> a == b
  {
    assert ("+" + a)[1..] == a && ("+" + b)[1..] == b;
  }
}
