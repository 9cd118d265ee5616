/** The second factor of a login: a time-based code, or a recovery code that is consumed on use. Logins are
    taken one after the other; the time-based check and the hash are given. */
module RecoveryCodes {
  import opened JsMaps
  import opened Text

  /** A login attempt that got past the password, with the verdict of the time-based check on its code. */
  datatype Attempt = Attempt(code: string, totpAccepts: bool)

  datatype Check = Check(ok: bool, viaBackup: bool, remaining: seq<string>)

  /** Without white space. */
  function Clean(code: string): string {
    if code == [] then [] else (if IsSpace(code[0]) then [] else [code[0]]) + Clean(code[1..])
  }

  function Lower(code: string): string {
    if code == [] then []
    else [if 'A' <= code[0] <= 'Z' then (code[0] as int + 32) as char else code[0]] + Lower(code[1..])
  }

  /** The form of a recovery code that is hashed. */
  function Normal(code: string): string {
    Lower(Clean(Clean(code)))
  }

  predicate SixDigits(code: string) {
    |code| == 6 && forall c :: c in code ==> '0' <= c <= '9'
  }

  function Removed(hashes: seq<string>, h: string): (r: seq<string>)
    ensures forall x :: x in r <==> x in hashes && x != h
    ensures |r| <= |hashes| && (h !in hashes ==> r == hashes)
  {
    if hashes == [] then []
    else (if hashes[0] == h then [] else [hashes[0]]) + Removed(hashes[1..], h)
  }

  function CheckSecondFactor(hash: string -> string, hasSecret: bool, hashes: seq<string>, a: Attempt): Check {
    var clean := Clean(a.code);
    if hasSecret && SixDigits(clean) && a.totpAccepts then Check(true, false, hashes)
    else
      var h := hash(Normal(a.code));
      if clean != "" && h in hashes then Check(true, true, Removed(hashes, h)) else Check(false, false, hashes)
  }

  // ---- the two forms of a code ----

  predicate Blank(code: string) {
    forall c :: c in code ==> IsSpace(c)
  }

  /** One character of a code in the form that is hashed. */
  function NormalChar(c: char): string {
    if IsSpace(c) then [] else if 'A' <= c <= 'Z' then [(c as int + 32) as char] else [c]
  }

  lemma {:induction false} CleanConcat(a: string, b: string)
    ensures Clean(a + b) == Clean(a) + Clean(b)
  {
    hide IsSpace;
    if a == [] {
      assert a + b == b;
    } else {
      assert (a + b)[1..] == a[1..] + b;
      CleanConcat(a[1..], b);
    }
  }

  lemma {:induction false} CleanTwice(code: string)
    ensures Clean(Clean(code)) == Clean(code)
    ensures Clean(code) == [] <==> Blank(code)
  {
    hide IsSpace;
    if code != [] {
      CleanTwice(code[1..]);
      var first := if IsSpace(code[0]) then [] else [code[0]];
      CleanConcat(first, Clean(code[1..]));
      assert code == [code[0]] + code[1..];
      assert first != [] ==> Clean(first) == first + Clean([]) == first;
    }
  }

  /** The hashed form is the code without its white space and with its capitals in lower case, character by character. */
  lemma NormalIs(code: string)
    ensures Normal(code) == if code == [] then [] else NormalChar(code[0]) + Normal(code[1..])
  {
    hide IsSpace;
    CleanTwice(code);
    if code != [] {
      var rest := Clean(code[1..]);
      CleanTwice(code[1..]);
      assert Clean(code) == (if IsSpace(code[0]) then [] else [code[0]]) + rest;
      assert [] + rest == rest && ([code[0]] + rest)[1..] == rest;
      assert [] + Lower(rest) == Lower(rest);
    }
  }

  /** The time-based check takes the code: six digits once its white space is gone. */
  predicate TakesTime(hasSecret: bool, a: Attempt) {
    hasSecret && a.totpAccepts && |Clean(a.code)| == 6 && forall c :: c in Clean(a.code) ==> '0' <= c <= '9'
  }

  /** The stored list without one of its hashes; every other hash is there as often as before. */
  ghost predicate LosesHash(before: seq<string>, after: seq<string>, lost: Option<string>) {
    forall h :: multiset(after)[h] == if lost == Some(h) then 0 else multiset(before)[h]
  }

  lemma {:induction false} RemovedCounts(hashes: seq<string>, h: string)
    ensures LosesHash(hashes, Removed(hashes, h), Some(h))
  {
    if hashes != [] {
      RemovedCounts(hashes[1..], h);
      assert hashes == [hashes[0]] + hashes[1..];
    }
  }

  /** What the check does, in the user's terms. */
  lemma CheckExactly(hash: string -> string, hasSecret: bool, hashes: seq<string>, a: Attempt)
    ensures var c, h := CheckSecondFactor(hash, hasSecret, hashes, a), hash(Normal(a.code));
      && (c.ok <==> TakesTime(hasSecret, a) || (!Blank(a.code) && h in hashes))
      && (c.viaBackup <==> c.ok && !TakesTime(hasSecret, a))
      && LosesHash(hashes, c.remaining, if c.viaBackup then Some(h) else None)
  {
    hide Normal, Clean, IsSpace, Removed, Blank;
    CleanTwice(a.code);
    RemovedCounts(hashes, hash(Normal(a.code)));
  }

  class User {
    const hasSecret: bool
    const hash: string -> string
    var twoFactorBackupCodes: seq<string>

    constructor (hasSecret: bool, hash: string -> string, hashes: seq<string>)
      ensures this.hasSecret == hasSecret && this.hash == hash && twoFactorBackupCodes == hashes
    {
      this.hasSecret, this.hash, twoFactorBackupCodes := hasSecret, hash, hashes;
    }

    /** The second-factor step of authorize: a consumed code is written back before the login succeeds. */
    method Authorize(a: Attempt) returns (ok: bool)
      modifies this
      ensures var c := CheckSecondFactor(hash, hasSecret, old(twoFactorBackupCodes), a);
        ok == c.ok && twoFactorBackupCodes == c.remaining
      ensures ok <==>
        TakesTime(hasSecret, a) || (!Blank(a.code) && hash(Normal(a.code)) in old(twoFactorBackupCodes))
      ensures LosesHash(old(twoFactorBackupCodes), twoFactorBackupCodes,
                        if ok && !TakesTime(hasSecret, a) then Some(hash(Normal(a.code))) else None)
    {
      CheckExactly(hash, hasSecret, twoFactorBackupCodes, a);
      var check := CheckSecondFactor(hash, hasSecret, twoFactorBackupCodes, a);
      if !check.ok { return false; }
      if check.viaBackup { twoFactorBackupCodes := check.remaining; }
      ok := true;
    }
  }

  /** The stored hashes after a series of logins. */
  function After(hash: string -> string, hasSecret: bool, hashes: seq<string>, attempts: seq<Attempt>): seq<string> {
    if attempts == [] then hashes
    else CheckSecondFactor(hash, hasSecret, After(hash, hasSecret, hashes, attempts[..|attempts| - 1]),
                           attempts[|attempts| - 1]).remaining
  }

  /** Login `i` of the series succeeds with a recovery code. */
  predicate ViaBackup(hash: string -> string, hasSecret: bool, hashes: seq<string>, attempts: seq<Attempt>,
      i: nat)
    requires i < |attempts|
  {
    CheckSecondFactor(hash, hasSecret, After(hash, hasSecret, hashes, attempts[..i]), attempts[i]).viaBackup
  }

  lemma {:induction false} OnlyShrinks(hash: string -> string, hasSecret: bool, hashes: seq<string>, attempts: seq<Attempt>,
      i: nat)
    requires i <= |attempts|
    ensures forall h :: h in After(hash, hasSecret, hashes, attempts) ==> h in After(hash, hasSecret, hashes, attempts[..i])
    decreases |attempts|
  {
    if i == |attempts| {
      assert attempts[..i] == attempts;
    } else {
      OnlyShrinks(hash, hasSecret, hashes, attempts[..|attempts| - 1], i);
      assert attempts[..|attempts| - 1][..i] == attempts[..i];
    }
  }

  /** A code that was used is gone for good. */
  lemma Consumed(hash: string -> string, hasSecret: bool, hashes: seq<string>, attempts: seq<Attempt>, i: nat, j: nat)
    requires i < j <= |attempts| && ViaBackup(hash, hasSecret, hashes, attempts, i)
    ensures hash(Normal(attempts[i].code)) !in After(hash, hasSecret, hashes, attempts[..j])
  {
    assert attempts[..i + 1][..i] == attempts[..i];
    assert hash(Normal(attempts[i].code)) !in After(hash, hasSecret, hashes, attempts[..i + 1]);
    OnlyShrinks(hash, hasSecret, hashes, attempts[..j], i + 1);
    assert attempts[..j][..i + 1] == attempts[..i + 1];
  }

  /** Over any series of logins no recovery code, however it is spaced or capitalised, succeeds twice. */
  lemma NeverTwice(hash: string -> string, hasSecret: bool, hashes: seq<string>, attempts: seq<Attempt>, i: nat, j: nat)
    requires i < j < |attempts|
    requires ViaBackup(hash, hasSecret, hashes, attempts, i) && ViaBackup(hash, hasSecret, hashes, attempts, j)
    ensures Normal(attempts[i].code) != Normal(attempts[j].code)
  {
    Consumed(hash, hasSecret, hashes, attempts, i, j);
  }

  function Successes(hash: string -> string, hasSecret: bool, hashes: seq<string>, attempts: seq<Attempt>): nat {
    if attempts == [] then 0
    else
      var used := if ViaBackup(hash, hasSecret, hashes, attempts, |attempts| - 1) then 1 else 0;
      Successes(hash, hasSecret, hashes, attempts[..|attempts| - 1]) + used
  }

  function Distinct(hashes: seq<string>): set<string> {
    set h | h in hashes
  }

  /** Successes with recovery codes use the stored hashes up: each costs one distinct hash. */
  lemma {:induction false} SuccessesAreCounted(
      hash: string -> string, hasSecret: bool, hashes: seq<string>, attempts: seq<Attempt>)
    ensures Successes(hash, hasSecret, hashes, attempts) + |Distinct(After(hash, hasSecret, hashes, attempts))|
      == |Distinct(hashes)|
  {
    if attempts != [] {
      var front, a := attempts[..|attempts| - 1], attempts[|attempts| - 1];
      SuccessesAreCounted(hash, hasSecret, hashes, front);
      var before := After(hash, hasSecret, hashes, front);
      var h := hash(Normal(a.code));
      var c := CheckSecondFactor(hash, hasSecret, before, a);
      if c.viaBackup {
        assert Distinct(c.remaining) == Distinct(before) - {h} && h in Distinct(before);
      }
    }
  }

  // ---- a series of logins, told by the codes given and the hashes at the start ----

  predicate Succeeds(hash: string -> string, hasSecret: bool, hashes: seq<string>, attempts: seq<Attempt>, i: nat)
    requires i < |attempts|
  {
    CheckSecondFactor(hash, hasSecret, After(hash, hasSecret, hashes, attempts[..i]), attempts[i]).ok
  }

  /** Login `i` spends a recovery code: the time-based check does not take it, it is not blank, its hash was stored at the
      start, and no login before it spent that hash. */
  predicate Spends(hash: string -> string, hasSecret: bool, hashes: seq<string>, attempts: seq<Attempt>, i: nat)
    requires i < |attempts|
    decreases i
  {
    var h := hash(Normal(attempts[i].code));
    && !TakesTime(hasSecret, attempts[i]) && !Blank(attempts[i].code) && h in hashes
    && forall j: nat | j < i :: !(Spends(hash, hasSecret, hashes, attempts, j) && hash(Normal(attempts[j].code)) == h)
  }

  ghost predicate SpentBefore(
      hash: string -> string, hasSecret: bool, hashes: seq<string>, attempts: seq<Attempt>, n: nat, h: string)
    requires n <= |attempts|
  {
    exists j: nat :: j < n && Spends(hash, hasSecret, hashes, attempts, j) && hash(Normal(attempts[j].code)) == h
  }

  lemma AfterOneMore(hash: string -> string, hasSecret: bool, hashes: seq<string>, attempts: seq<Attempt>, i: nat)
    requires i < |attempts|
    ensures After(hash, hasSecret, hashes, attempts[..i + 1]) ==
      CheckSecondFactor(hash, hasSecret, After(hash, hasSecret, hashes, attempts[..i]), attempts[i]).remaining
  {
    assert attempts[..i + 1][..i] == attempts[..i];
  }

  lemma SpendsIs(hash: string -> string, hasSecret: bool, hashes: seq<string>, attempts: seq<Attempt>, i: nat)
    requires i < |attempts|
    ensures var h := hash(Normal(attempts[i].code));
      Spends(hash, hasSecret, hashes, attempts, i) <==>
        !TakesTime(hasSecret, attempts[i]) && !Blank(attempts[i].code) && h in hashes
        && !SpentBefore(hash, hasSecret, hashes, attempts, i, h)
  {
    hide TakesTime, Blank, Normal;
  }

  lemma SpentOneMore(
      hash: string -> string, hasSecret: bool, hashes: seq<string>, attempts: seq<Attempt>, i: nat, h: string)
    requires i < |attempts|
    ensures SpentBefore(hash, hasSecret, hashes, attempts, i + 1, h) <==>
      || SpentBefore(hash, hasSecret, hashes, attempts, i, h)
      || (Spends(hash, hasSecret, hashes, attempts, i) && hash(Normal(attempts[i].code)) == h)
  {
    hide Spends, Normal;
  }

  /** What is stored after `n` logins: the hashes of the start that none of them spent. */
  lemma {:induction false} StoredExactly(
      hash: string -> string, hasSecret: bool, hashes: seq<string>, attempts: seq<Attempt>, n: nat, h: string)
    requires n <= |attempts|
    ensures multiset(After(hash, hasSecret, hashes, attempts[..n]))[h] ==
      if SpentBefore(hash, hasSecret, hashes, attempts, n, h) then 0 else multiset(hashes)[h]
  {
    hide TakesTime, Blank, Normal, CheckSecondFactor, Spends;
    if n > 0 {
      var i := n - 1;
      var before, k := After(hash, hasSecret, hashes, attempts[..i]), hash(Normal(attempts[i].code));
      StoredExactly(hash, hasSecret, hashes, attempts, i, h);
      StoredExactly(hash, hasSecret, hashes, attempts, i, k);
      AfterOneMore(hash, hasSecret, hashes, attempts, i);
      CheckExactly(hash, hasSecret, before, attempts[i]);
      SpendsIs(hash, hasSecret, hashes, attempts, i);
      SpentOneMore(hash, hasSecret, hashes, attempts, i, h);
      assert k in before <==> multiset(before)[k] > 0;
      assert k in hashes <==> multiset(hashes)[k] > 0;
    }
  }

  /** Over every series of logins: login `i` succeeds exactly when the time-based check takes its code, or it spends a recovery
      code that was stored at the start and that no login before it has spent. */
  lemma LoginsExactly(hash: string -> string, hasSecret: bool, hashes: seq<string>, attempts: seq<Attempt>, i: nat)
    requires i < |attempts|
    ensures Succeeds(hash, hasSecret, hashes, attempts, i) <==>
      TakesTime(hasSecret, attempts[i]) || Spends(hash, hasSecret, hashes, attempts, i)
    ensures ViaBackup(hash, hasSecret, hashes, attempts, i) <==> Spends(hash, hasSecret, hashes, attempts, i)
  {
    hide TakesTime, Blank, Normal, CheckSecondFactor, Spends, SpentBefore;
    var before, k := After(hash, hasSecret, hashes, attempts[..i]), hash(Normal(attempts[i].code));
    StoredExactly(hash, hasSecret, hashes, attempts, i, k);
    CheckExactly(hash, hasSecret, before, attempts[i]);
    SpendsIs(hash, hasSecret, hashes, attempts, i);
    assert k in before <==> multiset(before)[k] > 0;
    assert k in hashes <==> multiset(hashes)[k] > 0;
  }
}
