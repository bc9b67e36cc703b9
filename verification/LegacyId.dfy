/**
 The hand-written matcher of the legacy user id (crates/atg-protocol/src/session.rs). Every byte
 it steps over is ASCII, so positions here are characters where the source counts bytes.
 */
module LegacyId {
  import opened Prelude

  predicate IsHex(c: char) {
    '0' <= c <= '9' || 'a' <= c <= 'f' || 'A' <= c <= 'F'
  }

  predicate InClass(c: char, allowDash: bool) {
    IsHex(c) || (allowDash && c == '-')
  }

  predicate AllIn(s: string, allowDash: bool) {
    forall i :: 0 <= i < |s| ==> InClass(s[i], allowDash)
  }

  function Lower(s: string): (r: string)
    ensures |r| == |s|
  {
    if s == "" then ""
    else [if 'A' <= s[0] <= 'Z' then (s[0] as int + 32) as char else s[0]] + Lower(s[1..])
  }

  /** The first position at or after `i` where the scan stops, or the end. */
  function Find(s: string, i: nat, stop: (nat, char) -> bool): (k: nat)
    requires i <= |s|
    ensures i <= k <= |s|
    ensures forall j :: i <= j < k ==> !stop(j, s[j])
    ensures k < |s| ==> stop(k, s[k])
    decreases |s| - i
  {
    if i == |s| || stop(i, s[i]) then i else Find(s, i + 1, stop)
  }

  function EndsField(n: nat, allowDash: bool): (nat, char) -> bool {
    (i, c) => i >= n || !InClass(c, allowDash)
  }

  function EndsRun(): (nat, char) -> bool {
    (_, c) => !InClass(c, true)
  }

  function SplitAtClass(s: string, n: nat, allowDash: bool): Option<(string, string)> {
    var end := Find(s, 0, EndsField(n, allowDash));
    if end != n then None else Some((s[..end], s[end..]))
  }

  /** The session id and the account token, or nothing. */
  function Parts(userId: string): Option<(string, Option<string>)> {
    match StripPrefix(userId, "user_")
    case None => None
    case Some(rest) => match SplitAtClass(rest, 64, false)
      case None => None
      case Some((_, rest)) => match StripPrefix(rest, "_account_")
        case None => None
        case Some(rest) => AfterAccount(rest)
  }

  function AfterAccount(rest: string): Option<(string, Option<string>)> {
    var n := Find(rest, 0, EndsRun());
    var account := if n > 0 then Some(rest[..n]) else None;
    match StripPrefix(rest[n..], "_session_")
    case None => None
    case Some(rest) => match SplitAtClass(rest, 36, true)
      case None => None
      case Some((uuid, tail)) =>
        if tail != "" || '-' !in uuid then None else Some((Lower(uuid), account))
  }

  // ---------------------------------------------------------------------------------------------
  // The shape it stands for

  datatype Legacy = Legacy(user: string, account: string, session: string)

  predicate WellFormed(l: Legacy) {
    && |l.user| == 64 && DrawnFrom(l.user, HEX)
    && DrawnFrom(l.account, HEX + "-")
    && |l.session| == 36 && DrawnFrom(l.session, HEX + "-") && '-' in l.session
  }

  const HEX := "0123456789abcdefABCDEF"

  predicate DrawnFrom(s: string, alphabet: string) {
    forall i | 0 <= i < |s| :: s[i] in alphabet
  }

  /** The character class of the matcher is the hex digits of either case, and the dash on request. */
  lemma ClassIsAlphabet(c: char)
    ensures c in HEX <==> IsHex(c)
    ensures c in HEX + "-" <==> InClass(c, true)
  {
    HexLetters(c);
    assert c in HEX + "-" <==> c in HEX || c == '-';
  }

  lemma HexLetters(c: char)
    ensures c in HEX <==> IsHex(c)
  {
    assert HEX[0] == '0' && HEX[1] == '1' && HEX[2] == '2' && HEX[3] == '3' && HEX[4] == '4' && HEX[5] == '5';
    assert HEX[6] == '6' && HEX[7] == '7' && HEX[8] == '8' && HEX[9] == '9' && HEX[10] == 'a' && HEX[11] == 'b';
    assert HEX[12] == 'c' && HEX[13] == 'd' && HEX[14] == 'e' && HEX[15] == 'f' && HEX[16] == 'A';
    assert HEX[17] == 'B' && HEX[18] == 'C' && HEX[19] == 'D' && HEX[20] == 'E' && HEX[21] == 'F';
  }

  lemma DrawnIsIn(s: string)
    ensures DrawnFrom(s, HEX) <==> AllIn(s, false)
    ensures DrawnFrom(s, HEX + "-") <==> AllIn(s, true)
  {
    forall i | 0 <= i < |s|
      ensures (s[i] in HEX <==> InClass(s[i], false)) && (s[i] in HEX + "-" <==> InClass(s[i], true))
    {
      ClassIsAlphabet(s[i]);
    }
  }

  lemma WellFormedIn(l: Legacy)
    ensures WellFormed(l) <==>
              && |l.user| == 64 && AllIn(l.user, false) && AllIn(l.account, true)
              && |l.session| == 36 && AllIn(l.session, true) && '-' in l.session
  {
    DrawnIsIn(l.user);
    DrawnIsIn(l.account);
    DrawnIsIn(l.session);
  }

  /** Capital letters come out small, everything else as it is. */
  lemma {:induction false} LowerAt(s: string, i: nat)
    requires i < |s|
    ensures Lower(s)[i] == (if 'A' <= s[i] <= 'Z' then s[i] - 'A' + 'a' else s[i])
    ensures !('A' <= Lower(s)[i] <= 'Z')
  {
    if i > 0 { LowerAt(s[1..], i - 1); }
  }

  function Written(l: Legacy): string {
    "user_" + (l.user + ("_account_" + Tail(l)))
  }

  function Tail(l: Legacy): string {
    l.account + ("_session_" + l.session)
  }

  function Meaning(l: Legacy): (string, Option<string>) {
    (Lower(l.session), if l.account == "" then None else Some(l.account))
  }

  lemma StripExact(p: string, rest: string)
    ensures StripPrefix(p + rest, p) == Some(rest)
  {
  }

  lemma Stripped(s: string, p: string)
    requires StripPrefix(s, p).Some?
    ensures s == p + StripPrefix(s, p).value
  {
  }

  lemma {:induction false} FindIs(s: string, i: nat, stop: (nat, char) -> bool, k: nat)
    requires i <= k <= |s|
    requires forall j :: i <= j < k ==> !stop(j, s[j])
    requires k == |s| || stop(k, s[k])
    ensures Find(s, i, stop) == k
    decreases k - i
  {
    if i < k {
      FindIs(s, i + 1, stop, k);
    }
  }

  /** A split gives back its input, and is the only way to take `n` class characters off it. */
  lemma SplitIff(s: string, n: nat, allowDash: bool, taken: string, rest: string)
    ensures SplitAtClass(s, n, allowDash) == Some((taken, rest))
            <==> s == taken + rest && |taken| == n && AllIn(taken, allowDash)
  {
    if s == taken + rest && |taken| == n && AllIn(taken, allowDash) {
      FindIs(s, 0, EndsField(n, allowDash), n);
    }
  }

  /** A run of class characters ends exactly where a character outside the class begins. */
  lemma FindEndsRun(run: string, rest: string)
    requires AllIn(run, true) && rest != "" && !InClass(rest[0], true)
    ensures Find(run + rest, 0, EndsRun()) == |run|
  {
    FindIs(run + rest, 0, EndsRun(), |run|);
  }

  lemma TailIsRead(l: Legacy)
    requires WellFormed(l)
    ensures AfterAccount(Tail(l)) == Some(Meaning(l))
  {
    WellFormedIn(l);
    FindEndsRun(l.account, "_session_" + l.session);
    assert Tail(l)[..|l.account|] == l.account;
    assert Tail(l)[|l.account|..] == "_session_" + l.session;
    StripExact("_session_", l.session);
    SplitIff(l.session, 36, true, l.session, "");
  }

  lemma WrittenIsRead(l: Legacy)
    requires WellFormed(l)
    ensures Parts(Written(l)) == Some(Meaning(l))
  {
    WellFormedIn(l);
    var afterUser := "_account_" + Tail(l);
    StripExact("user_", l.user + afterUser);
    SplitIff(l.user + afterUser, 64, false, l.user, afterUser);
    StripExact("_account_", Tail(l));
    TailIsRead(l);
  }

  lemma TailWasWritten(rest: string, user: string) returns (l: Legacy)
    requires |user| == 64 && AllIn(user, false)
    requires AfterAccount(rest).Some?
    ensures l.user == user && WellFormed(l) && rest == Tail(l)
    ensures AfterAccount(rest) == Some(Meaning(l))
  {
    var n := Find(rest, 0, EndsRun());
    var account, after := rest[..n], rest[n..];
    Stripped(after, "_session_");
    var session := StripPrefix(after, "_session_").value;
    var (uuid, tail) := SplitAtClass(session, 36, true).value;
    SplitIff(session, 36, true, uuid, tail);
    assert uuid + "" == uuid;
    l := Legacy(user, account, session);
    WellFormedIn(l);
    assert rest == account + after;
  }

  lemma ReadWasWritten(userId: string) returns (l: Legacy)
    requires Parts(userId).Some?
    ensures WellFormed(l) && userId == Written(l) && Parts(userId) == Some(Meaning(l))
  {
    Stripped(userId, "user_");
    var rest := StripPrefix(userId, "user_").value;
    var (user, afterUser) := SplitAtClass(rest, 64, false).value;
    SplitIff(rest, 64, false, user, afterUser);
    Stripped(afterUser, "_account_");
    l := TailWasWritten(StripPrefix(afterUser, "_account_").value, user);
  }

  /** The matcher accepts exactly the written ids, and reads each as what it was written for. */
  lemma PartsIff(userId: string, result: (string, Option<string>))
    ensures Parts(userId) == Some(result)
            <==> exists l :: WellFormed(l) && userId == Written(l) && result == Meaning(l)
  {
    if Parts(userId) == Some(result) {
      var l := ReadWasWritten(userId);
      assert WellFormed(l) && userId == Written(l) && result == Meaning(l);
    }
    if l :| WellFormed(l) && userId == Written(l) && result == Meaning(l) {
      WrittenIsRead(l);
    }
  }

  /** No id can be read two ways. */
  lemma WrittenOnce(l: Legacy, m: Legacy)
    requires WellFormed(l) && WellFormed(m) && Written(l) == Written(m)
    ensures l == m
  {
    WellFormedIn(l);
    WellFormedIn(m);
    var lAfter, mAfter := "_account_" + Tail(l), "_account_" + Tail(m);
    StripExact("user_", l.user + lAfter);
    StripExact("user_", m.user + mAfter);
    SplitIff(l.user + lAfter, 64, false, l.user, lAfter);
    SplitIff(m.user + mAfter, 64, false, m.user, mAfter);
    StripExact("_account_", Tail(l));
    StripExact("_account_", Tail(m));
    FindEndsRun(l.account, "_session_" + l.session);
    FindEndsRun(m.account, "_session_" + m.session);
    assert Tail(l)[..|l.account|] == l.account && Tail(m)[..|m.account|] == m.account;
    assert Tail(l)[|l.account|..] == "_session_" + l.session;
    assert Tail(m)[|m.account|..] == "_session_" + m.session;
    StripExact("_session_", l.session);
    StripExact("_session_", m.session);
  }
}
