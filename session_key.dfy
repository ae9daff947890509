/** `SessionKey`: the two key pairs of a login session, one sent in LoginOk and one in PlayOk.
    Whether the LoginOk pair takes part in a comparison depends on `Config.SHOW_LICENCE`,
    a parameter here. */
module SessionKeys {
  import opened Decimal
  import opened Wrappers

  datatype SessionKey = SessionKey(playOkId1: int, playOkId2: int, loginOkId1: int, loginOkId2: int)

  /** The constructor, which takes the LoginOk pair first and the PlayOk pair second. */
  function Make(loginOk1: int, loginOk2: int, playOk1: int, playOk2: int): (k: SessionKey)
    ensures k.loginOkId1 == loginOk1 && k.loginOkId2 == loginOk2
    ensures k.playOkId1 == playOk1 && k.playOkId2 == playOk2
  {
    SessionKey(playOk1, playOk2, loginOk1, loginOk2)
  }

  /** `checkLoginPair`: whether (loginOk1, loginOk2) is the key's LoginOk pair. */
  predicate CheckLoginPair(k: SessionKey, loginOk1: int, loginOk2: int)
  {
    k.loginOkId1 == loginOk1 && k.loginOkId2 == loginOk2
  }

  /** `equals(SessionKey)`: all four parts when the licence is shown, otherwise only the
      PlayOk pair, which is all a client that never saw LoginOk holds. */
  predicate Equals(k: SessionKey, key: SessionKey, showLicence: bool)
  {
    if showLicence then
      k.playOkId1 == key.playOkId1 && k.loginOkId1 == key.loginOkId1 &&
      k.playOkId2 == key.playOkId2 && k.loginOkId2 == key.loginOkId2
    else
      k.playOkId1 == key.playOkId1 && k.playOkId2 == key.playOkId2
  }

  /** With the licence shown, equal keys are identical keys, and equality is the PlayOk
      comparison together with the login-pair check. */
  lemma EqualsWithLicence(k: SessionKey, key: SessionKey)
    ensures Equals(k, key, true) <==> k == key
    ensures Equals(k, key, true) <==> Equals(k, key, false) && CheckLoginPair(k, key.loginOkId1, key.loginOkId2)
  {
  }

  /** Without the licence, keys are equal exactly when their PlayOk pairs are, whatever
      their LoginOk pairs; keys equal with the licence are equal without it. */
  lemma EqualsWithoutLicence(k: SessionKey, key: SessionKey)
    ensures Equals(k, key, false) <==> (k.playOkId1, k.playOkId2) == (key.playOkId1, key.playOkId2)
    ensures Equals(k, key, true) ==> Equals(k, key, false)
    ensures Equals(k, key.(loginOkId1 := k.loginOkId1 + 1), false) == Equals(k, key, false)
  {
  }

  /** Under either setting `equals` is an equivalence. */
  lemma EqualsIsEquivalence(a: SessionKey, b: SessionKey, c: SessionKey, showLicence: bool)
    ensures Equals(a, a, showLicence)
    ensures Equals(a, b, showLicence) ==> Equals(b, a, showLicence)
    ensures Equals(a, b, showLicence) && Equals(b, c, showLicence) ==> Equals(a, c, showLicence)
  {
  }

  /** `toString`: "PlayOk: p1 p2 LoginOk:l1 l2". */
  function ToString(k: SessionKey): string
  {
    "PlayOk: " + IntToString(k.playOkId1) + " " + IntToString(k.playOkId2) +
    " LoginOk:" + IntToString(k.loginOkId1) + " " + IntToString(k.loginOkId2)
  }

  /** Reads back what `toString` writes: the key, or None for text of another shape. */
  function Parse(s: string): (r: Option<SessionKey>)
  {
    match NumberAfter("PlayOk: ", s)
    case None => None
    case Some((p1, r1)) =>
      match NumberAfter(" ", r1)
      case None => None
      case Some((p2, r2)) =>
        match NumberAfter(" LoginOk:", r2)
        case None => None
        case Some((l1, r3)) =>
          match NumberAfter(" ", r3)
          case None => None
          case Some((l2, r4)) => if r4 == [] then Some(SessionKey(p1, p2, l1, l2)) else None
  }

  /** The text of a key names the key: reading it back gives the key. */
  lemma ParseToString(k: SessionKey)
    ensures Parse(ToString(k)) == Some(k)
  {
    var s1 := IntToString(k.playOkId1);
    var s2 := IntToString(k.playOkId2);
    var s3 := IntToString(k.loginOkId1);
    var s4 := IntToString(k.loginOkId2);
    var r4: string := [];
    var r3 := " " + s4 + r4;
    var r2 := " LoginOk:" + s3 + r3;
    var r1 := " " + s2 + r2;
    assert ToString(k) == "PlayOk: " + s1 + r1;
    NumberAfterOf("PlayOk: ", k.playOkId1, r1);
    NumberAfterOf(" ", k.playOkId2, r2);
    NumberAfterOf(" LoginOk:", k.loginOkId1, r3);
    NumberAfterOf(" ", k.loginOkId2, r4);
  }

  /** Hence distinct keys have distinct texts. */
  lemma ToStringInjective(k: SessionKey, key: SessionKey)
    requires ToString(k) == ToString(key)
    ensures k == key
  {
    ParseToString(k);
    ParseToString(key);
  }
}
