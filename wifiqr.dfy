/** A model of the core of package wifiqr: validating a WiFi network
    descriptor and encoding it as the `WIFI:T:…;S:…;P:…;H:…;;` text that a
    QR code carries, plus the adapter from the package's recovery level to
    the QR renderer's. */
module WifiQr {

  // ---------------------------------------------------------------------
  // Authentication and recovery levels
  // ---------------------------------------------------------------------

  /** The type of WiFi authentication of a network. An open integer, as in
      the source, so that unknown values can be represented and rejected. */
  type Authentication = int

  const None: Authentication := 0
  const WEP: Authentication := 1
  const WPA: Authentication := 2

  /** The package's QR recovery level. Its zero value is Medium. */
  type RecoveryLevel = int

  const Medium: RecoveryLevel := 0
  const Low: RecoveryLevel := 1
  const High: RecoveryLevel := 2
  const Highest: RecoveryLevel := 3

  /** The QR renderer's own recovery levels. */
  datatype QrRecoveryLevel = QLow | QMedium | QHigh | QHighest

  /** Maps the package's recovery level onto the renderer's. Medium, the
      zero value, and every unknown value become QMedium. */
  function Convert(rl: RecoveryLevel): (q: QrRecoveryLevel)
    ensures q == QLow <==> rl == Low
    ensures q == QHigh <==> rl == High
    ensures q == QHighest <==> rl == Highest
    ensures q == QMedium <==> rl != Low && rl != High && rl != Highest
  {
    if rl == Low then QLow
    else if rl == High then QHigh
    else if rl == Highest then QHighest
    else QMedium
  }

  /** The named package level that stands for a renderer level: Convert's
      inverse on the four named levels. */
  function Level(q: QrRecoveryLevel): (rl: RecoveryLevel)
    ensures Medium <= rl <= Highest
    ensures Convert(rl) == q
  {
    match q
    case QLow => Low
    case QMedium => Medium
    case QHigh => High
    case QHighest => Highest
  }

  /** On the four named levels Convert loses nothing. */
  lemma ConvertNamedRoundTrip(rl: RecoveryLevel)
    requires Medium <= rl <= Highest
    ensures Level(Convert(rl)) == rl
  {
  }

  // ---------------------------------------------------------------------
  // Configuration, key/value pairs and errors
  // ---------------------------------------------------------------------

  /** The parameters of a WiFi QR code. */
  datatype Config = Config(
    authentication: Authentication,
    ssid: string,
    password: string,
    hidden: bool,
    recoveryLevel: RecoveryLevel)

  /** One `Key:Value` pair of the payload. */
  datatype KV = KV(key: string, value: string)

  /** The ways validation can fail. MissingPassword records which of WEP and
      WPA asked for the password. */
  datatype Error =
    | InvalidPassword
    | MissingPassword(auth: Authentication)
    | InvalidAuthentication
    | MissingSSID

  datatype Result<T> = Ok(value: T) | Err(error: Error)

  /** The documented rule for authentication and password: an open network
      carries no password, a WEP or WPA network carries one, and no other
      authentication type exists. */
  predicate ValidAuth(c: Config) {
    || (c.authentication == None && c.password == "")
    || ((c.authentication == WEP || c.authentication == WPA) && c.password != "")
  }

  /** The `T` pair for the configured authentication type, or the reason the
      authentication type and password do not fit together. */
  function AuthKV(c: Config): (r: Result<KV>)
    ensures r.Ok? <==> ValidAuth(c)
    ensures r.Ok? ==> r.value.key == "T"
    ensures r.Ok? && c.authentication == None ==> r.value.value == ""
    ensures r.Ok? && c.authentication == WEP ==> r.value.value == "WEP"
    ensures r.Ok? && c.authentication == WPA ==> r.value.value == "WPA"
    ensures r == Err(InvalidPassword) <==> c.authentication == None && c.password != ""
    ensures r == Err(MissingPassword(c.authentication)) <==>
              (c.authentication == WEP || c.authentication == WPA) && c.password == ""
    ensures r == Err(InvalidAuthentication) <==>
              c.authentication != None && c.authentication != WEP && c.authentication != WPA
  {
    if c.authentication == None then
      if c.password != "" then Err(InvalidPassword) else Ok(KV("T", ""))
    else if c.authentication == WEP then
      if c.password == "" then Err(MissingPassword(WEP)) else Ok(KV("T", "WEP"))
    else if c.authentication == WPA then
      if c.password == "" then Err(MissingPassword(WPA)) else Ok(KV("T", "WPA"))
    else
      Err(InvalidAuthentication)
  }

  // ---------------------------------------------------------------------
  // Encoding
  // ---------------------------------------------------------------------

  /** The position a key takes in the payload: T, S, P, H. */
  function KeyRank(k: string): nat {
    if k == "T" then 0 else if k == "S" then 1 else if k == "P" then 2 else if k == "H" then 3 else 4
  }

  /** The pairs encode emits, in order, for a config whose authentication
      pair is `auth`. */
  function Pairs(auth: KV, c: Config): seq<KV> {
    [auth, KV("S", c.ssid)]
      + (if c.password != "" then [KV("P", c.password)] else [])
      + (if c.hidden then [KV("H", "true")] else [])
  }

  /** The pairs come in the order T, S, P, H; the password pair is there
      exactly when there is a password, and the hidden pair exactly when the
      network is hidden. */
  lemma PairsOrder(auth: KV, c: Config)
    requires auth.key == "T"
    ensures var kvs := Pairs(auth, c);
            && |kvs| == 2 + (if c.password != "" then 1 else 0) + (if c.hidden then 1 else 0)
            && kvs[0] == auth && kvs[1] == KV("S", c.ssid)
            && (KV("P", c.password) in kvs <==> c.password != "")
            && (KV("H", "true") in kvs <==> c.hidden)
            && forall i, j :: 0 <= i < j < |kvs| ==> KeyRank(kvs[i].key) < KeyRank(kvs[j].key)
  {
  }

  /** One pair as it appears in the payload: `Key:Value;`, with no escaping. */
  function Segment(p: KV): string {
    p.key + ":" + p.value + ";"
  }

  /** The segments of `kvs`, concatenated in order. */
  function Render(kvs: seq<KV>): string {
    if kvs == [] then "" else Render(kvs[..|kvs| - 1]) + Segment(kvs[|kvs| - 1])
  }

  lemma RenderAppend(kvs: seq<KV>, p: KV)
    ensures Render(kvs + [p]) == Render(kvs) + Segment(p)
  {
  }

  /** The payload written out in one piece, for the authentication tag `tag`. */
  function Payload(tag: string, c: Config): string {
    "WIFI:T:" + ((tag + ";") + ("S:" + c.ssid + ";")
      + (if c.password != "" then "P:" + c.password + ";" else "")
      + (if c.hidden then "H:true;" else "")) + ";"
  }

  /** Every payload starts with `WIFI:T:` and ends with `;;`. */
  lemma PayloadFrame(tag: string, c: Config)
    ensures var s := Payload(tag, c);
            |s| >= 10 && s[..7] == "WIFI:T:" && s[|s| - 2..] == ";;"
  {
  }

  /** Rendering the authentication and SSID pairs. */
  lemma RenderBase(auth: KV, ssid: string)
    requires auth.key == "T"
    ensures Render([auth, KV("S", ssid)]) == "T:" + (auth.value + ";" + ("S:" + ssid + ";"))
  {
    RenderAppend([auth], KV("S", ssid));
    assert [auth] == [] + [auth];
    RenderAppend([], auth);
  }

  /** Rendering one more pair, or none, after pairs that render as `T:` + r. */
  lemma RenderOptional(kvs: seq<KV>, r: string, p: KV, present: bool)
    requires Render(kvs) == "T:" + r
    ensures Render(kvs + (if present then [p] else []))
            == "T:" + (r + (if present then Segment(p) else ""))
  {
    if present {
      RenderAppend(kvs, p);
    } else {
      assert kvs + [] == kvs;
    }
  }

  /** Rendering the pairs gives the closed form of the payload. */
  lemma RenderPairs(auth: KV, c: Config)
    requires auth.key == "T"
    ensures "WIFI:" + Render(Pairs(auth, c)) + ";" == Payload(auth.value, c)
  {
    var base := [auth, KV("S", c.ssid)];
    var withP := base + (if c.password != "" then [KV("P", c.password)] else []);
    var kvs := withP + (if c.hidden then [KV("H", "true")] else []);
    var sSeg := auth.value + ";" + ("S:" + c.ssid + ";");
    var pSeg := if c.password != "" then "P:" + c.password + ";" else "";
    var hSeg := if c.hidden then "H:true;" else "";
    RenderBase(auth, c.ssid);
    RenderOptional(base, sSeg, KV("P", c.password), c.password != "");
    assert Segment(KV("P", c.password)) == "P:" + c.password + ";";
    RenderOptional(withP, sSeg + pSeg, KV("H", "true"), c.hidden);
    assert Segment(KV("H", "true")) == "H:true;";
    WrapT(sSeg + pSeg + hSeg);
  }

  lemma WrapT(body: string)
    ensures "WIFI:" + ("T:" + body) + ";" == "WIFI:T:" + body + ";"
  {
  }

  /** What encode computes: the authentication error if there is one, then
      the missing-SSID error, else the payload. */
  function Encoding(c: Config): (r: Result<string>)
    ensures !ValidAuth(c) ==> r == Err(AuthKV(c).error)
    ensures r == Err(MissingSSID) <==> ValidAuth(c) && c.ssid == ""
    ensures r.Ok? <==> ValidAuth(c) && c.ssid != ""
    ensures r.Ok? ==> r.value == Payload(AuthKV(c).value.value, c)
  {
    match AuthKV(c)
    case Err(e) => Err(e)
    case Ok(auth) =>
      if c.ssid == "" then Err(MissingSSID)
      else
        RenderPairs(auth, c);
        Ok("WIFI:" + Render(Pairs(auth, c)) + ";")
  }

  /** Every successful encoding starts with `WIFI:T:` and ends with `;;`. */
  lemma EncodingFrame(c: Config)
    requires Encoding(c).Ok?
    ensures var s := Encoding(c).value;
            |s| >= 10 && s[..7] == "WIFI:T:" && s[|s| - 2..] == ";;"
  {
  }

  /** encode as the source writes it: validate, collect the pairs, then
      write each pair into a growing string. */
  method Encode(c: Config) returns (r: Result<string>)
    ensures r == Encoding(c)
  {
    var authResult := AuthKV(c);
    if authResult.Err? {
      return Err(authResult.error);
    }
    var auth := authResult.value;
    if c.ssid == "" {
      return Err(MissingSSID);
    }
    var kvs := [auth, KV("S", c.ssid)];
    if c.password != "" {
      kvs := kvs + [KV("P", c.password)];
    }
    if c.hidden {
      kvs := kvs + [KV("H", "true")];
    }
    assert kvs == Pairs(auth, c);
    var sb := "";
    for i := 0 to |kvs|
      invariant sb == Render(kvs[..i])
    {
      assert kvs[..i + 1][..i] == kvs[..i];
      sb := sb + Segment(kvs[i]);
    }
    assert kvs[..|kvs|] == kvs;
    return Ok("WIFI:" + sb + ";");
  }

  /** The input that New hands to the QR renderer: the encoded payload and
      the converted recovery level. An encoding error is returned unchanged. */
  datatype QrInput = QrInput(content: string, level: QrRecoveryLevel)

  function New(c: Config): (r: Result<QrInput>)
    ensures r.Err? ==> Encoding(c) == Err(r.error)
    ensures r.Ok? <==> ValidAuth(c) && c.ssid != ""
    ensures r.Ok? ==> r.value.content == Payload(AuthKV(c).value.value, c)
    ensures r.Ok? && c.recoveryLevel == Medium ==> r.value.level == QMedium
    ensures r.Ok? ==> Level(r.value.level) == c.recoveryLevel
                      || (r.value.level == QMedium && !(Low <= c.recoveryLevel <= Highest))
  {
    match Encoding(c)
    case Err(e) => Err(e)
    case Ok(s) => Ok(QrInput(s, Convert(c.recoveryLevel)))
  }

  // ---------------------------------------------------------------------
  // The package's table of expected encodings and levels
  // ---------------------------------------------------------------------

  lemma EncodingRejections()
    ensures Encoding(Config(None, "", "", false, Medium)) == Err(MissingSSID)
    ensures Encoding(Config(-1, "", "", false, Medium)) == Err(InvalidAuthentication)
    ensures Encoding(Config(None, "", "xxx", false, Medium)) == Err(InvalidPassword)
    ensures Encoding(Config(WEP, "", "", false, Medium)) == Err(MissingPassword(WEP))
    ensures Encoding(Config(WPA, "", "", false, Medium)) == Err(MissingPassword(WPA))
  {
  }

  lemma EncodingExampleNone()
    ensures Encoding(Config(None, "Foo", "", false, Medium)) == Ok("WIFI:T:;S:Foo;;")
  {
    var c := Config(None, "Foo", "", false, Medium);
    assert "WIFI:T:" + (";" + "S:Foo;") + ";" == "WIFI:T:;S:Foo;;";
    assert AuthKV(c) == Ok(KV("T", ""));
    assert Payload("", c) == "WIFI:T:" + (";" + "S:Foo;") + ";";
  }

  lemma EncodingExampleWEP()
    ensures Encoding(Config(WEP, "Bar", "abc", false, Medium)) == Ok("WIFI:T:WEP;S:Bar;P:abc;;")
  {
    var c := Config(WEP, "Bar", "abc", false, Medium);
    assert "WIFI:T:" + ("WEP;" + "S:Bar;" + "P:abc;") + ";" == "WIFI:T:WEP;S:Bar;P:abc;;";
    assert AuthKV(c) == Ok(KV("T", "WEP"));
    assert Payload("WEP", c) == "WIFI:T:" + ("WEP;" + "S:Bar;" + "P:abc;") + ";";
  }

  lemma EncodingExampleWPA()
    ensures Encoding(Config(WPA, "Baz", "def", false, Medium)) == Ok("WIFI:T:WPA;S:Baz;P:def;;")
  {
    var c := Config(WPA, "Baz", "def", false, Medium);
    assert "WIFI:T:" + ("WPA;" + "S:Baz;" + "P:def;") + ";" == "WIFI:T:WPA;S:Baz;P:def;;";
    assert AuthKV(c) == Ok(KV("T", "WPA"));
    assert Payload("WPA", c) == "WIFI:T:" + ("WPA;" + "S:Baz;" + "P:def;") + ";";
  }

  lemma EncodingExampleHidden()
    ensures Encoding(Config(WPA, "Qux", "ghi", true, Medium)) == Ok("WIFI:T:WPA;S:Qux;P:ghi;H:true;;")
  {
    var c := Config(WPA, "Qux", "ghi", true, Medium);
    assert "WIFI:T:" + ("WPA;" + "S:Qux;" + "P:ghi;" + "H:true;") + ";" == "WIFI:T:WPA;S:Qux;P:ghi;H:true;;";
    assert AuthKV(c) == Ok(KV("T", "WPA"));
    assert Payload("WPA", c) == "WIFI:T:" + ("WPA;" + "S:Qux;" + "P:ghi;" + "H:true;") + ";";
  }

  lemma ConvertExamples()
    ensures Convert(0) == QMedium && Convert(100) == QMedium
    ensures Convert(Low) == QLow && Convert(Medium) == QMedium
    ensures Convert(High) == QHigh && Convert(Highest) == QHighest
  {
  }
}
