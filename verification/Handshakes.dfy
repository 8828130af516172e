/**
 * The WebSocket handshake (section 4 of RFC 6455), from the fields a client writes to the 101 it
 * reads: which requests are accepted, and what the answer says.
 */
module Handshakes {
  import opened Options
  import opened Text
  import opened Lists
  import opened Base64
  import opened HttpParser
  import opened HttpGrammar
  import opened HttpRoundTrip
  import opened HttpResponses
  import opened Responder
  import opened Routing
  import opened Wires
  import Decimal

  /** The fields of an opening handshake, as their client wrote them. */
  ghost predicate AsksUpgrade(rl: RequestLine, fields: seq<Field>) {
    && rl.verb == "GET" && rl.version == "HTTP/1.1"
    && IsOnly(fields, "upgrade", value => ToLower(value) == "websocket")
    && HasLowered(AllElements(FieldValues(fields, "connection")), "upgrade")
    && IsOnly(fields, "sec-websocket-version", value => value == "13")
    && IsOnly(fields, "sec-websocket-key", IsNonce)
  }

  /** Exactly one field of that name, and its value is right. */
  predicate IsOnly(fields: seq<Field>, name: string, right: string -> bool) {
    var values := FieldValues(fields, name);
    |values| == 1 && right(values[0])
  }

  /** Sixteen bytes in Base64. */
  predicate IsNonce(key: string) {
    DecodeText(key).Some? && |DecodeText(key).value| == 16
  }

  // ---- Joined values hold a comma ----

  lemma JoinedHasComma(values: seq<string>)
    requires |values| >= 2
    ensures ',' in JoinValues(values)
  {
    var front := JoinValues(values[..|values| - 1]);
    assert JoinValues(values)[|front|] == ',';
  }

  lemma TrimKeepsComma(s: string)
    requires ',' in s
    ensures ',' in Trim(s)
  {
    hide Trim;
    var left, right := TrimSplits(s);
    var i: nat :| i < |s| && s[i] == ',';
    assert s == left + Trim(s) + right;
    assert forall k :: 0 <= k < |left| ==> s[k] == left[k];
    assert forall k :: |left| + |Trim(s)| <= k < |s| ==> s[k] == right[k - |left| - |Trim(s)|];
    assert Trim(s)[i - |left|] == ',';
  }

  lemma LowerKeepsComma(s: string)
    requires ',' in s
    ensures ',' in ToLower(s)
  {
    var i: nat :| i < |s| && s[i] == ',';
    assert ToLower(s)[i] == ',';
  }

  lemma {:induction false} SextetsAreSymbols(text: string)
    ensures Sextets(text).Some? ==> forall i :: 0 <= i < |text| ==> SymbolValue(text[i]) >= 0
  {
    if text != "" {
      SextetsAreSymbols(text[..|text| - 1]);
    }
  }

  lemma {:induction false} PadsArePads(text: string)
    ensures forall i :: |text| - Pads(text) <= i < |text| ==> text[i] == '='
  {
    if text != "" && text[|text| - 1] == '=' {
      PadsArePads(text[..|text| - 1]);
    }
  }

  lemma CommaIsNoNonce(text: string)
    requires ',' in text
    ensures !IsNonce(text)
  {
    hide Sextets, Pads, Unpack;
    var i: nat :| i < |text| && text[i] == ',';
    var front := text[..|text| - Pads(text)];
    assert i < |front| ==> front[i] == ',';
    PadsArePads(text);
    SextetsAreSymbols(front);
  }

  // ---- Which requests are accepted ----

  /** Whether a header of the request is there and its trimmed value is right. */
  predicate HeaderIs(request: Request, name: string, right: string -> bool) {
    name in request.headers && right(Trim(request.headers[name]))
  }

  /** A header that must not hold a comma is right iff the one field of its name is. */
  lemma OneFieldDecides(request: Request, fields: seq<Field>, name: string, right: string -> bool)
    requires EntryIs(request.headers, FieldValues(fields, name), name)
    requires forall i :: 0 <= i < |fields| ==> IsField(fields[i])
    requires forall s :: ',' in s ==> !right(s)
    ensures HeaderIs(request, name, right) <==> IsOnly(fields, name, right)
  {
    hide Trim, IsToken, IsCore, FieldValues;
    var values := FieldValues(fields, name);
    if |values| >= 2 {
      JoinedHasComma(values);
      TrimKeepsComma(request.headers[name]);
    } else if |values| == 1 {
      ValuesAreCores(fields, name);
      TrimCore(values[0]);
    }
  }

  lemma {:induction false} ValuesAreCores(fields: seq<Field>, name: string)
    requires forall i :: 0 <= i < |fields| ==> IsField(fields[i])
    ensures forall i :: 0 <= i < |FieldValues(fields, name)| ==> IsCore(FieldValues(fields, name)[i])
  {
    hide IsToken, IsCore, ToLower;
    if fields != [] {
      ValuesAreCores(fields[1..], name);
      assert IsField(fields[0]);
    }
  }

  /** The handshake as the server tests it, header by header. */
  lemma KeyOfHeaders(request: Request)
    ensures HandshakeKey(request).Some? <==>
              && request.verb == "GET" && request.version == "HTTP/1.1"
              && HeaderIs(request, "upgrade", value => ToLower(value) == "websocket")
              && "connection" in request.headers && HasLowered(Elements(request.headers["connection"]), "upgrade")
              && HeaderIs(request, "sec-websocket-version", value => value == "13")
              && HeaderIs(request, "sec-websocket-key", IsNonce)
    ensures HandshakeKey(request).Some? ==> HandshakeKey(request).value == Trim(request.headers["sec-websocket-key"])
  {
    hide Trim, ToLower, Elements, HasLowered, DecodeText;
  }

  lemma NoCommas()
    ensures forall s: string :: ',' in s ==> ToLower(s) != "websocket" && s != "13" && !IsNonce(s)
  {
    hide ToLower, IsNonce;
    forall s: string | ',' in s ensures ToLower(s) != "websocket" && s != "13" && !IsNonce(s) {
      LowerKeepsComma(s);
      CommaIsNoNonce(s);
      assert ',' !in "websocket" && ',' !in "13";
    }
  }

  lemma ConnectionAsWritten(request: Request, fields: seq<Field>)
    requires EntryIs(request.headers, FieldValues(fields, "connection"), "connection")
    ensures "connection" in request.headers && HasLowered(Elements(request.headers["connection"]), "upgrade")
       <==> HasLowered(AllElements(FieldValues(fields, "connection")), "upgrade")
  {
    hide Elements, FieldValues, HasLowered;
    var values := FieldValues(fields, "connection");
    if values == [] {
      assert AllElements([]) == [] && !HasLowered([], "upgrade") by { NothingLowered(); }
    } else {
      ElementsOfJoinValues(values);
    }
  }

  lemma NothingLowered()
    ensures AllElements([]) == [] && !HasLowered([], "upgrade")
  {
  }

  /** A written request is accepted exactly if it is an opening handshake, and then its key is the one it wrote. */
  lemma HandshakeAsWritten(request: Request, rl: RequestLine, fields: seq<Field>)
    requires IsHead(rl, fields) && Says(request, rl, fields)
    ensures HandshakeKey(request).Some? <==> AsksUpgrade(rl, fields)
    ensures HandshakeKey(request).Some? ==> FieldValues(fields, "sec-websocket-key") == [HandshakeKey(request).value]
  {
    hide Trim, ToLower, Elements, HasLowered, DecodeText, FieldValues, HandshakeKey, IsField, Acceptable, KeepsOpen;
    hide AllElements, IsNonce, EntryIs;
    KeyOfHeaders(request);
    NoCommas();
    assert EntryIs(request.headers, FieldValues(fields, "upgrade"), "upgrade");
    assert EntryIs(request.headers, FieldValues(fields, "connection"), "connection");
    assert EntryIs(request.headers, FieldValues(fields, "sec-websocket-version"), "sec-websocket-version");
    assert EntryIs(request.headers, FieldValues(fields, "sec-websocket-key"), "sec-websocket-key");
    OneFieldDecides(request, fields, "upgrade", value => ToLower(value) == "websocket");
    ConnectionAsWritten(request, fields);
    OneFieldDecides(request, fields, "sec-websocket-version", value => value == "13");
    OneFieldDecides(request, fields, "sec-websocket-key", IsNonce);
    KeyAsWritten(request, fields);
  }

  lemma KeyAsWritten(request: Request, fields: seq<Field>)
    requires EntryIs(request.headers, FieldValues(fields, "sec-websocket-key"), "sec-websocket-key")
    requires forall i :: 0 <= i < |fields| ==> IsField(fields[i])
    ensures IsOnly(fields, "sec-websocket-key", IsNonce) ==>
              FieldValues(fields, "sec-websocket-key") == [Trim(request.headers["sec-websocket-key"])]
  {
    hide Trim, IsField, IsNonce, FieldValues;
    if IsOnly(fields, "sec-websocket-key", IsNonce) {
      ValuesAreCores(fields, "sec-websocket-key");
      TrimCore(FieldValues(fields, "sec-websocket-key")[0]);
    }
  }

  // ---- What the answer says ----

  /** A protocol switch, and the accept value that answers the key. */
  ghost predicate SaysUpgrade(head: string, accept: string) {
    && head != "" && AllFieldLines(FieldLines(head, LineNext(head, 0)))
    && StatusOf(head) == Some(101)
    && HeaderValues(head, "upgrade") == ["websocket"] && HeaderValues(head, "connection") == ["Upgrade"]
    && HeaderValues(head, "sec-websocket-accept") == [accept]
  }

  lemma UpgradeLower()
    ensures ToLower("Upgrade") == "upgrade" && ToLower("Connection") == "connection"
    ensures ToLower("Sec-WebSocket-Accept") == "sec-websocket-accept"
    ensures "upgrade" != "connection" && "upgrade" != "sec-websocket-accept" && "connection" != "sec-websocket-accept"
  {
    hide ToLower;
    LowerIs("Upgrade", "upgrade");
    LowerIs("Connection", "connection");
    LowerIs("Sec-WebSocket-Accept", "sec-websocket-accept");
    assert |"upgrade"| == 7 && |"connection"| == 10 && |"sec-websocket-accept"| == 20;
  }

  lemma ThreeValues(accept: string, name: string)
    ensures FieldValues(UpgradeFields(accept), name)
         == if name == "upgrade" then ["websocket"] else if name == "connection" then ["Upgrade"]
            else if name == "sec-websocket-accept" then [accept] else []
  {
    hide ToLower, FieldValues;
    UpgradeLower();
    var a, b, c := UpgradeFields(accept)[0], UpgradeFields(accept)[1], UpgradeFields(accept)[2];
    assert UpgradeFields(accept) == [a] + ([b] + ([c] + []));
    assert FieldValues([], name) == [] by { NoValues([], name); }
    FieldValuesCons(c, [], name);
    FieldValuesCons(b, [c] + [], name);
    FieldValuesCons(a, [b] + ([c] + []), name);
  }

  lemma UpgradeValues(accept: string, name: string)
    requires '\n' !in accept && IsCore(accept)
    ensures var head := SwitchingProtocols(accept);
            && head != "" && AllFieldLines(FieldLines(head, LineNext(head, 0)))
            && HeaderValues(head, name)
            == if name == "upgrade" then ["websocket"] else if name == "connection" then ["Upgrade"]
               else if name == "sec-websocket-accept" then [accept] else []
  {
    hide FieldLines, ValuesOf, IsFieldLine, LineNext, RenderFields, Texts, FieldValues, SwitchingProtocols, IsToken, Trim, IsCore;
    hide AllFieldLines, Trimmed, ToLower;
    var fields := UpgradeFields(accept);
    UpgradeShape(accept);
    UpgradeNames();
    LinesOfHead(SwitchingProtocols(accept), "HTTP/1.1 101 Switching Protocols", fields);
    TextsGiveTrimmed(fields, name);
    ThreeValues(accept, name);
    TrimCore(accept);
    WordsAreCores();
    OneTrimmed(accept);
    OneTrimmed("websocket");
    OneTrimmed("Upgrade");
  }

  lemma WordsAreCores()
    ensures Trim("websocket") == "websocket" && Trim("Upgrade") == "Upgrade"
  {
    hide Trim;
    TrimCore("websocket");
    TrimCore("Upgrade");
  }

  lemma OneTrimmed(value: string)
    ensures Trimmed([value]) == [Trim(value)] && Trimmed([]) == []
  {
    hide Trim;
    TrimmedCons(value, []);
    assert [value] + [] == [value] && [Trim(value)] + [] == [Trim(value)];
  }

  lemma UpgradeIsTold(accept: string)
    requires '\n' !in accept && IsCore(accept)
    ensures SaysUpgrade(SwitchingProtocols(accept), accept)
  {
    hide FieldLines, ValuesOf, IsFieldLine, LineNext, HeaderValues, IsCore, AllFieldLines, StatusOf;
    UpgradeValues(accept, "upgrade");
    UpgradeValues(accept, "connection");
    UpgradeValues(accept, "sec-websocket-accept");
    UpgradeStatus(accept);
  }

  lemma UpgradeStatus(accept: string)
    ensures StatusOf(SwitchingProtocols(accept)) == Some(101)
  {
    hide StatusOf;
    var start, fields := "HTTP/1.1 101 ", "Switching Protocols\r\n" + "Upgrade: websocket\r\n" + "Connection: Upgrade\r\n"
                                         + "Sec-WebSocket-Accept: " + accept;
    var rest := fields + "\r\n" + "\r\n";
    FirstApart(start, "Switching Protocols\r\n", "Upgrade: websocket\r\n", "Connection: Upgrade\r\n",
               "Sec-WebSocket-Accept: ", accept);
    ThreeApart(start, fields, "\r\n", "\r\n");
    assert start + "Switching Protocols\r\n" == "HTTP/1.1 101 Switching Protocols\r\n";
    assert SwitchingProtocols(accept) == start + fields + "\r\n" + "\r\n";
    assert start == "HTTP/1.1 " + "101" + " ";
    CodeIsRead("101", rest);
    OneHundredAndOne();
  }

  lemma ThreeApart(start: string, a: string, b: string, c: string)
    ensures start + a + b + c == start + (a + b + c)
  {
  }

  lemma OneHundredAndOne()
    ensures Decimal.AllDigits("101") && Decimal.Value("101") == 101
  {
    assert "101"[..2] == "10" && "10"[..1] == "1" && "1"[..0] == "";
  }

  lemma {:induction false} EncodedIsCore(bytes: seq<Byte>)
    ensures IsCore(EncodeText(bytes)) && '\n' !in EncodeText(bytes)
  {
    hide IsCore;
    EncodedIsOneLine(bytes);
    EncodedHasNoBlank(bytes);
    CoreWithoutBlanks(EncodeText(bytes));
  }

  lemma CoreWithoutBlanks(s: string)
    requires ' ' !in s && '\t' !in s
    ensures IsCore(s)
  {
  }

  lemma {:induction false} EncodedHasNoBlank(bytes: seq<Byte>)
    ensures ' ' !in EncodeText(bytes) && '\t' !in EncodeText(bytes)
  {
    if |bytes| > 3 {
      GroupHasNoBlank(bytes[..3]);
      EncodedHasNoBlank(bytes[3..]);
    } else if bytes != [] {
      GroupHasNoBlank(bytes);
    }
  }

  lemma GroupHasNoBlank(bytes: seq<Byte>)
    requires 1 <= |bytes| <= 3
    ensures ' ' !in EncodeGroup(bytes) && '\t' !in EncodeGroup(bytes)
  {
    hide Sextet1, Sextet2, Sextet3, Sextet4;
  }

  /**
   * A written request for the WebSocket endpoint is switched over exactly if it is an opening
   * handshake, with the digest of the key it wrote, and gets 400 otherwise; either way the server closes.
   */
  lemma HandshakeIsAnswered(w: World, at: nat, request: Request, rl: RequestLine, fields: seq<Field>)
    requires IsHead(rl, fields) && Says(request, rl, fields) && IsForWebSocket(rl.target) && !w.throws(at, request)
    ensures var result := BuildResponse(w, at, request);
            && result.closeAfterWrite
            && (if AsksUpgrade(rl, fields) then
                  result.statusCode == 101
                  && SaysUpgrade(result.response, EncodeText(w.digest(FieldValues(fields, "sec-websocket-key")[0])))
                else result.statusCode == 400 && Announces(result.response, 400, result.bodySize, false))
  {
    hide HandshakeKey, AsksUpgrade, Announces, SaysUpgrade, IsHead, IsForWebSocket, FieldValues, TextResult, SwitchingProtocols;
    hide IsWebSocketEndpoint, EncodeText, EntryIs, KeepsOpen;
    WebSocketPathExact(request.path);
    HandshakeAsWritten(request, rl, fields);
    if AsksUpgrade(rl, fields) {
      var key := HandshakeKey(request).value;
      EncodedIsCore(w.digest(key));
      UpgradeIsTold(EncodeText(w.digest(key)));
    } else {
      TextStatus(400, "Bad Request", false, request.verb != "HEAD");
    }
  }
}
