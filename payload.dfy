/** Splitting the payload on `;`. The payload is a list of `;`-terminated
    fields and the encoder escapes nothing, so a reader that splits on every
    `;` and honours no escape character gets the fields back exactly when no
    value contains `;`, and not in general. A reader that treats `\` as an
    escape is not modelled: for it a value ending in `\` already breaks the
    field boundaries. */
module WifiQrPayload {
  import opened WifiQr

  predicate NoSemicolon(s: string) {
    forall i :: 0 <= i < |s| ==> s[i] != ';'
  }

  /** The number of semicolons in `s`. */
  function Semicolons(s: string): nat {
    if s == [] then 0 else (if s[0] == ';' then 1 else 0) + Semicolons(s[1..])
  }

  /** The pieces of `s` between semicolons; `s` has one more piece than it
      has semicolons, and no piece contains one. */
  function Split(s: string): (parts: seq<string>)
    ensures |parts| == Semicolons(s) + 1
    ensures forall k :: 0 <= k < |parts| ==> NoSemicolon(parts[k])
  {
    if s == [] then [""]
    else
      var rest := Split(s[1..]);
      if s[0] == ';' then [""] + rest else [[s[0]] + rest[0]] + rest[1..]
  }

  lemma {:induction false} SplitField(a: string, b: string)
    requires NoSemicolon(a)
    ensures Split(a + ";" + b) == [a] + Split(b)
  {
    if a == [] {
      assert a + ";" + b == [';'] + b;
      assert ([';'] + b)[1..] == b;
    } else {
      assert (a + ";" + b)[1..] == a[1..] + ";" + b;
      SplitField(a[1..], b);
      assert [a[0]] + a[1..] == a;
    }
  }

  /** The pieces after the SSID field: the password field when there is a
      password, the hidden field when the network is hidden, and the two
      empty pieces the closing `;;` leaves. */
  function TrailingFields(password: string, hidden: bool): seq<string> {
    (if password != "" then ["P:" + password] else [])
      + (if hidden then ["H:true"] else []) + ["", ""]
  }

  lemma SplitOptionalFields(password: string, hidden: bool)
    requires NoSemicolon(password)
    ensures Split((if password != "" then "P:" + password + ";" else "")
                  + (if hidden then "H:true;" else "") + ";")
            == TrailingFields(password, hidden)
  {
    var hSeg := if hidden then "H:true;" else "";
    var tail := hSeg + ";";
    var tailFields := (if hidden then ["H:true"] else []) + ["", ""];
    assert Split(tail) == tailFields by {
      assert Split("") == [""];
      SplitField("", "");
      assert "" + ";" + "" == ";";
      if hidden {
        assert tail == "H:true" + ";" + ";";
        SplitField("H:true", ";");
      } else {
        assert tail == ";";
      }
    }
    if password != "" {
      assert "P:" + password + ";" + hSeg + ";" == "P:" + password + ";" + tail;
      assert NoSemicolon("P:" + password);
      SplitField("P:" + password, tail);
    } else {
      assert "" + hSeg + ";" == tail;
    }
  }

  /** The payload regrouped as its first two fields and the rest. */
  lemma PayloadShape(tag: string, c: Config)
    ensures Payload(tag, c)
            == "WIFI:T:" + tag + ";" + ("S:" + c.ssid + ";"
               + ((if c.password != "" then "P:" + c.password + ";" else "")
                  + (if c.hidden then "H:true;" else "") + ";"))
  {
  }

  /** The fields of a payload whose values contain no semicolon: the
      authentication field, the SSID field, then the trailing fields. */
  lemma PayloadFields(tag: string, c: Config)
    requires NoSemicolon(tag) && NoSemicolon(c.ssid) && NoSemicolon(c.password)
    ensures Split(Payload(tag, c))
            == ["WIFI:T:" + tag, "S:" + c.ssid] + TrailingFields(c.password, c.hidden)
  {
    var opt := TrailingFields(c.password, c.hidden);
    var afterS := (if c.password != "" then "P:" + c.password + ";" else "")
      + (if c.hidden then "H:true;" else "") + ";";
    assert Split(afterS) == opt by {
      SplitOptionalFields(c.password, c.hidden);
    }
    var rest := "S:" + c.ssid + ";" + afterS;
    assert Split(rest) == ["S:" + c.ssid] + opt by {
      assert NoSemicolon("S:" + c.ssid);
      SplitField("S:" + c.ssid, afterS);
    }
    assert Split(Payload(tag, c)) == ["WIFI:T:" + tag] + (["S:" + c.ssid] + opt) by {
      PayloadShape(tag, c);
      assert NoSemicolon("WIFI:T:" + tag);
      SplitField("WIFI:T:" + tag, rest);
    }
  }

  /** The third field starts with `P` exactly when there is a password, and
      then it is the password field. */
  lemma PasswordField(tag: string, c: Config)
    requires NoSemicolon(tag) && NoSemicolon(c.ssid) && NoSemicolon(c.password)
    ensures var f := Split(Payload(tag, c));
            && |f| == 4 + (if c.password != "" then 1 else 0) + (if c.hidden then 1 else 0)
            && (c.password != "" <==> |f[2]| > 0 && f[2][0] == 'P')
            && (c.password != "" ==> f[2] == "P:" + c.password)
  {
    PayloadFields(tag, c);
    var f := Split(Payload(tag, c));
    if c.password == "" {
      assert f[2] == "H:true" || f[2] == "";
    } else {
      assert f[2] == "P:" + c.password;
    }
  }

  /** When no value contains a semicolon, the payload determines the
      authentication tag, the SSID, the password and the hidden flag. */
  lemma PayloadInjective(tag1: string, c1: Config, tag2: string, c2: Config)
    requires NoSemicolon(tag1) && NoSemicolon(c1.ssid) && NoSemicolon(c1.password)
    requires NoSemicolon(tag2) && NoSemicolon(c2.ssid) && NoSemicolon(c2.password)
    requires Payload(tag1, c1) == Payload(tag2, c2)
    ensures tag1 == tag2 && c1.ssid == c2.ssid
    ensures c1.password == c2.password && c1.hidden == c2.hidden
  {
    PayloadFields(tag1, c1);
    PayloadFields(tag2, c2);
    PasswordField(tag1, c1);
    PasswordField(tag2, c2);
    var f1 := Split(Payload(tag1, c1));
    var f2 := Split(Payload(tag2, c2));
    assert f1[0] == "WIFI:T:" + tag1 && f2[0] == "WIFI:T:" + tag2;
    assert f1[1] == "S:" + c1.ssid && f2[1] == "S:" + c2.ssid;
    assert tag1 == ("WIFI:T:" + tag1)[7..] && tag2 == ("WIFI:T:" + tag2)[7..];
    assert c1.ssid == ("S:" + c1.ssid)[2..] && c2.ssid == ("S:" + c2.ssid)[2..];
    assert c1.password != "" <==> c2.password != "";
    if c1.password != "" {
      assert c1.password == ("P:" + c1.password)[2..] && c2.password == ("P:" + c2.password)[2..];
    }
  }

  /** A successful encoding of a config whose SSID and password contain no
      semicolon determines its authentication type, SSID, password and hidden
      flag. */
  lemma EncodingInjective(c1: Config, c2: Config)
    requires NoSemicolon(c1.ssid) && NoSemicolon(c1.password)
    requires NoSemicolon(c2.ssid) && NoSemicolon(c2.password)
    requires Encoding(c1).Ok? && Encoding(c1) == Encoding(c2)
    ensures c1.authentication == c2.authentication && c1.ssid == c2.ssid
    ensures c1.password == c2.password && c1.hidden == c2.hidden
  {
    var tag1 := AuthKV(c1).value.value;
    var tag2 := AuthKV(c2).value.value;
    assert NoSemicolon(tag1) && NoSemicolon(tag2);
    PayloadInjective(tag1, c1, tag2, c2);
  }

  /** Without escaping the payload is ambiguous: a password ending in
      `;H:true` encodes to the same text as the shorter password on a hidden
      network. */
  lemma UnescapedCollision(c: Config)
    requires c.password != "" && !c.hidden
    ensures Encoding(c.(password := c.password + ";H:true"))
            == Encoding(c.(hidden := true))
  {
    var c1 := c.(password := c.password + ";H:true");
    var c2 := c.(hidden := true);
    assert AuthKV(c1) == AuthKV(c2);
    if AuthKV(c1).Ok? {
      var tag := AuthKV(c1).value.value;
      assert "P:" + c1.password + ";" == "P:" + c.password + ";" + "H:true;" by {
        assert ";H:true" + ";" == ";" + "H:true;";
      }
      assert Payload(tag, c1) == Payload(tag, c2);
    }
  }

  /** The collision on a concrete pair of WPA networks. */
  lemma UnescapedCollisionExample()
    ensures Encoding(Config(WPA, "x", "y;H:true", false, Medium))
            == Encoding(Config(WPA, "x", "y", true, Medium))
  {
    var c := Config(WPA, "x", "y", false, Medium);
    UnescapedCollision(c);
    assert c.(password := c.password + ";H:true") == Config(WPA, "x", "y;H:true", false, Medium);
    assert c.(hidden := true) == Config(WPA, "x", "y", true, Medium);
  }
}
