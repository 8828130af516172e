/** What HttpParser accepts, stated as a grammar over lines, and what it returns. */
module HttpGrammar {
  import opened Options
  import opened Text
  import opened Decimal
  import opened Lists
  import opened HttpParser

  lemma TokenHasNo(s: string, c: char)
    requires IsToken(s) && !IsTokenCharacter(c)
    ensures c !in s
  {
    forall i | 0 <= i < |s| ensures s[i] != c {
      assert IsTokenCharacter(s[i]);
    }
  }

  /** The three-blank scan accepts exactly the request-line grammar, and returns its three parts. */
  lemma RequestLineExact(line: string, rl: RequestLine)
    ensures SplitRequestLine(line) == Some(rl) && Acceptable(rl) <==> IsRequestLine(line, rl)
  {
    if SplitRequestLine(line) == Some(rl) && Acceptable(rl) {
      RequestLineSound(line, rl);
    }
    if IsRequestLine(line, rl) {
      RequestLineComplete(line, rl);
    }
  }

  lemma RequestLineSound(line: string, rl: RequestLine)
    requires SplitRequestLine(line) == Some(rl) && Acceptable(rl)
    ensures IsRequestLine(line, rl)
  {
    var first := IndexOf(line, ' ', 0).value;
    var second := IndexOf(line, ' ', first + 1).value;
    IndexOfIsFirst(line, ' ', first + 1);
    CutTwice(line, first, second);
    SliceHasNo(line, ' ', first + 1, second);
  }

  lemma CutTwice(s: string, i: nat, j: nat)
    requires i < j < |s|
    ensures s == s[..i] + [s[i]] + s[i + 1..j] + [s[j]] + s[j + 1..]
  {
  }

  lemma SliceHasNo(s: string, c: char, i: nat, j: nat)
    requires i <= j <= |s| && forall k :: i <= k < j ==> s[k] != c
    ensures c !in s[i..j]
  {
  }

  lemma RequestLineComplete(line: string, rl: RequestLine)
    requires IsRequestLine(line, rl)
    ensures SplitRequestLine(line) == Some(rl)
  {
    hide IsToken, IndexOf;
    BlanksOf(rl.verb, rl.target, rl.version);
    NotEmpty(rl.verb);
    ThreeSlices(rl.verb, rl.target, rl.version);
  }

  /** Where the three searches for a blank end on a well-formed line. */
  lemma BlanksOf(verb: string, target: string, version: string)
    requires IsToken(verb) && ' ' !in target && ' ' !in version
    ensures var line, first, second := verb + " " + target + " " + version, |verb|, |verb| + 1 + |target|;
            && IndexOf(line, ' ', 0) == Some(first)
            && IndexOf(line, ' ', first + 1) == Some(second)
            && IndexOf(line, ' ', second + 1).None?
  {
    hide IsToken, IndexOf;
    ThreeParts(verb, target, version);
    TokenHasNo(verb, ' ');
    FirstBetween("", verb, ' ', target + " " + version);
    FirstBetween(verb + " ", target, ' ', version);
    NoneAfter(verb + " " + target + " ", version, ' ');
  }

  lemma ThreeSlices(verb: string, target: string, version: string)
    ensures var line, first, second := verb + " " + target + " " + version, |verb|, |verb| + 1 + |target|;
            line[..first] == verb && line[first + 1..second] == target && line[second + 1..] == version
  {
  }

  lemma NoneAfter(prefix: string, piece: string, c: char)
    requires c !in piece
    ensures IndexOf(prefix + piece, c, |prefix|).None?
  {
    forall i: nat | |prefix| <= i < |prefix + piece| ensures (prefix + piece)[i] != c {
      assert (prefix + piece)[i] == piece[i - |prefix|];
    }
    IndexOfAbsent(prefix + piece, c, |prefix|);
  }

  lemma ThreeParts(verb: string, target: string, version: string)
    ensures var line := verb + " " + target + " " + version;
            && line == "" + verb + [' '] + (target + " " + version)
            && line == (verb + " ") + target + [' '] + version
  {
  }

  lemma NotEmpty(verb: string)
    requires IsToken(verb)
    ensures verb != ""
  {
  }

  /** After a prefix and a piece without it, the character is found where it stands. */
  lemma FirstBetween(prefix: string, piece: string, c: char, rest: string)
    requires c !in piece
    ensures IndexOf(prefix + piece + [c] + rest, c, |prefix|) == Some(|prefix| + |piece|)
  {
    var s := prefix + piece + [c] + rest;
    forall i: nat | |prefix| <= i < |prefix| + |piece| ensures s[i] != c {
      assert s[i] == piece[i - |prefix|];
    }
    IndexOfUnique(s, c, |prefix|, |prefix| + |piece|);
  }

  /** A field line is a token, a colon and any rest; the token is found whatever the rest holds. */
  lemma FieldLineOf(name: string, rest: string)
    requires IsToken(name)
    ensures IsFieldLine(name + ":" + rest)
    ensures FieldName(name + ":" + rest) == ToLower(name)
    ensures FieldValue(name + ":" + rest) == Trim(rest)
  {
    var line := name + ":" + rest;
    TokenHasNo(name, ':');
    forall i: nat | i < |name| ensures line[i] != ':' {
      assert line[i] == name[i];
    }
    assert line[|name|] == ':';
    IndexOfUnique(line, ':', 0, |name|);
    assert line[..|name|] == name && line[|name| + 1..] == rest;
  }

  /** The grammar of a field line: a token, a colon, and any rest. */
  ghost predicate IsFieldText(line: string) {
    exists name, rest :: IsToken(name) && line == name + ":" + rest
  }

  /** The colon search accepts exactly the field-line grammar. */
  lemma FieldLineExact(line: string)
    ensures IsFieldLine(line) <==> IsFieldText(line)
  {
    hide IsToken;
    if IsFieldLine(line) {
      var colon := IndexOf(line, ':', 0).value;
      var name, rest := line[..colon], line[colon + 1..];
      assert line == name + ":" + rest;
    }
    if name, rest :| IsToken(name) && line == name + ":" + rest {
      FieldLineOf(name, rest);
    }
  }

  /** The header lines from `pos` up to the blank line or the end, each without its line ending. */
  function FieldLines(raw: string, pos: nat): seq<string>
    requires pos <= |raw|
    decreases |raw| - pos
  {
    if pos == |raw| then [] else
    var line := StripCr(raw[pos..LineEnd(raw, pos)]);
    if line == "" then [] else [line] + FieldLines(raw, LineNext(raw, pos))
  }

  /** Bytes of those lines and of the blank line, line feeds counted even for a last unended line. */
  function HeaderBytes(raw: string, pos: nat): nat
    requires pos <= |raw|
    decreases |raw| - pos
  {
    if pos == |raw| then 0 else
    var end := LineEnd(raw, pos);
    if StripCr(raw[pos..end]) == "" then end - pos + 1
    else end - pos + 1 + HeaderBytes(raw, LineNext(raw, pos))
  }

  predicate AllFieldLines(lines: seq<string>) {
    forall i :: 0 <= i < |lines| ==> IsFieldLine(lines[i])
  }

  /** The values of the lines whose lower-case name is `name`, in order. */
  function ValuesOf(lines: seq<string>, name: string): seq<string>
    requires AllFieldLines(lines)
  {
    if lines == [] then [] else
    var front, last := lines[..|lines| - 1], lines[|lines| - 1];
    ValuesOf(front, name) + (if FieldName(last) == name then [FieldValue(last)] else [])
  }

  /** The entry of one name: present iff some line has the name, and then the joined values. */
  ghost predicate EntryIs(headers: map<string, string>, values: seq<string>, name: string) {
    if values == [] then name !in headers else name in headers && headers[name] == JoinValues(values)
  }

  ghost predicate RepresentsName(headers: map<string, string>, lines: seq<string>, name: string)
    requires AllFieldLines(lines)
  {
    EntryIs(headers, ValuesOf(lines, name), name)
  }

  /** The header map holds, for each name with a line, the joined values of its lines. */
  ghost predicate Represents(headers: map<string, string>, lines: seq<string>)
    requires AllFieldLines(lines)
  {
    forall name :: RepresentsName(headers, lines, name)
  }

  lemma AddHeaderRepresents(headers: map<string, string>, lines: seq<string>, line: string)
    requires AllFieldLines(lines) && Represents(headers, lines) && IsFieldLine(line)
    ensures AllFieldLines(lines + [line])
    ensures Represents(AddHeader(headers, FieldName(line), FieldValue(line)), lines + [line])
  {
    var all := lines + [line];
    var headers' := AddHeader(headers, FieldName(line), FieldValue(line));
    forall name ensures RepresentsName(headers', all, name) {
      var before := ValuesOf(lines, name);
      assert RepresentsName(headers, lines, name);
      assert all[..|all| - 1] == lines;
      if FieldName(line) == name {
        assert (before + [FieldValue(line)])[..|before|] == before;
      } else {
        assert ValuesOf(all, name) == before;
      }
    }
  }

  lemma AllFieldLinesCons(line: string, rest: seq<string>)
    ensures AllFieldLines([line] + rest) <==> IsFieldLine(line) && AllFieldLines(rest)
  {
    var all := [line] + rest;
    assert all[0] == line;
    assert forall i :: 0 <= i < |rest| ==> all[i + 1] == rest[i];
  }

  /** The header loop succeeds iff every line is a field line and all lines fit the limit. */
  lemma {:induction false} ReadHeadersAccepts(raw: string, pos: nat, length: nat, headers: map<string, string>, limit: nat)
    requires pos <= |raw| && length <= limit
    ensures ReadHeaders(raw, pos, length, headers, limit).Some?
       <==> AllFieldLines(FieldLines(raw, pos)) && length + HeaderBytes(raw, pos) <= limit
    decreases |raw| - pos
  {
    if pos < |raw| {
      var end, next := LineEnd(raw, pos), LineNext(raw, pos);
      var length' := length + (end - pos) + 1;
      var line := StripCr(raw[pos..end]);
      if length' <= limit && line != "" {
        AllFieldLinesCons(line, FieldLines(raw, next));
        if IsFieldLine(line) {
          ReadHeadersAccepts(raw, next, length', AddHeader(headers, FieldName(line), FieldValue(line)), limit);
        }
      }
    }
  }

  /** What the header loop returns joins, name by name, the values of all lines read. */
  lemma {:induction false} ReadHeadersJoins(raw: string, pos: nat, length: nat, headers: map<string, string>,
                                            limit: nat, before: seq<string>, all: seq<string>)
    requires pos <= |raw| && ReadHeaders(raw, pos, length, headers, limit).Some?
    requires AllFieldLines(before) && Represents(headers, before)
    requires AllFieldLines(all) && all == before + FieldLines(raw, pos)
    ensures Represents(ReadHeaders(raw, pos, length, headers, limit).value, all)
    decreases |raw| - pos
  {
    if pos == |raw| || StripCr(raw[pos..LineEnd(raw, pos)]) == "" {
      assert all == before;
    } else {
      var end, next := LineEnd(raw, pos), LineNext(raw, pos);
      var line := StripCr(raw[pos..end]);
      AddHeaderRepresents(headers, before, line);
      Reassociate(before, line, FieldLines(raw, next));
      ReadHeadersJoins(raw, next, length + (end - pos) + 1,
                       AddHeader(headers, FieldName(line), FieldValue(line)), limit, before + [line], all);
    }
  }

  lemma Reassociate(before: seq<string>, line: string, rest: seq<string>)
    ensures before + ([line] + rest) == (before + [line]) + rest
  {
  }

  /** Two or more joined values contain a comma, so they are never a number. */
  lemma JoinedIsNoNumber(values: seq<string>)
    requires |values| >= 2
    ensures ParseWord(JoinValues(values)).None?
  {
    var front := JoinValues(values[..|values| - 1]);
    assert JoinValues(values)[|front|] == ',';
  }

  /** No Content-Length line, or exactly one whose value is a decimal word. */
  ghost predicate ContentLengthOk(lines: seq<string>)
    requires AllFieldLines(lines)
  {
    var values := ValuesOf(lines, "content-length");
    |values| == 0 || (|values| == 1 && ParseWord(values[0]).Some?)
  }

  ghost predicate Grammatical(raw: string) {
    && raw != ""
    && LineEnd(raw, 0) <= MAX_LENGTH
    && (exists rl :: IsRequestLine(StripCr(raw[..LineEnd(raw, 0)]), rl))
    && AllFieldLines(FieldLines(raw, LineNext(raw, 0)))
    && HeaderBytes(raw, LineNext(raw, 0)) <= MAX_LENGTH
    && ContentLengthOk(FieldLines(raw, LineNext(raw, 0)))
  }

  /** The connection stays open unless some line says close; HTTP/1.0 must ask for it. */
  ghost predicate CloseFirst(version: string, lines: seq<string>)
    requires AllFieldLines(lines)
  {
    var options := AllElements(ValuesOf(lines, "connection"));
    !HasLowered(options, "close") && (version == "HTTP/1.1" || HasLowered(options, "keep-alive"))
  }

  /** What a successful parse holds, in terms of the lines of the request head. */
  ghost predicate Describes(request: Request, raw: string)
    requires raw != "" && AllFieldLines(FieldLines(raw, LineNext(raw, 0)))
  {
    var lines := FieldLines(raw, LineNext(raw, 0));
    && IsRequestLine(StripCr(raw[..LineEnd(raw, 0)]), RequestLine(request.verb, request.path, request.version))
    && Represents(request.headers, lines)
    && (request.hasContentLength <==> |ValuesOf(lines, "content-length")| == 1)
    && (request.hasContentLength ==> ParseWord(ValuesOf(lines, "content-length")[0]) == Some(request.contentLength))
    && (!request.hasContentLength ==> request.contentLength == 0)
    && (request.keepAlive <==> CloseFirst(request.version, lines))
    && request.body == ""
  }

  lemma KeepAliveIsCloseFirst(version: string, headers: map<string, string>, lines: seq<string>)
    requires AllFieldLines(lines) && Represents(headers, lines)
    ensures ShouldKeepAlive(version, headers) <==> CloseFirst(version, lines)
  {
    var values := ValuesOf(lines, "connection");
    assert RepresentsName(headers, lines, "connection");
    if values != [] {
      ElementsOfJoinValues(values);
    }
  }

  lemma FinishExact(rl: RequestLine, headers: map<string, string>, lines: seq<string>)
    requires AllFieldLines(lines) && Represents(headers, lines)
    ensures Finish(rl, headers).Some? <==> ContentLengthOk(lines)
    ensures Finish(rl, headers).Some? ==>
              var request := Finish(rl, headers).value;
              && request.headers == headers
              && (request.hasContentLength <==> |ValuesOf(lines, "content-length")| == 1)
              && (request.hasContentLength ==>
                    ParseWord(ValuesOf(lines, "content-length")[0]) == Some(request.contentLength))
  {
    var values := ValuesOf(lines, "content-length");
    assert RepresentsName(headers, lines, "content-length");
    if |values| >= 2 {
      JoinedIsNoNumber(values);
    }
  }

  /** The header loop started on an empty map, as the parser starts it. */
  lemma HeadersExact(raw: string, pos: nat)
    requires pos <= |raw|
    ensures var r := ReadHeaders(raw, pos, 0, map[], MAX_LENGTH);
            && (r.Some? <==> AllFieldLines(FieldLines(raw, pos)) && HeaderBytes(raw, pos) <= MAX_LENGTH)
            && (r.Some? ==> Represents(r.value, FieldLines(raw, pos)))
  {
    ReadHeadersAccepts(raw, pos, 0, map[], MAX_LENGTH);
    var lines := FieldLines(raw, pos);
    if ReadHeaders(raw, pos, 0, map[], MAX_LENGTH).Some? {
      assert lines == [] + lines;
      ReadHeadersJoins(raw, pos, 0, map[], MAX_LENGTH, [], lines);
    }
  }

  lemma RequestLineAccepted(line: string)
    ensures SplitRequestLine(line).Some? && Acceptable(SplitRequestLine(line).value)
       <==> exists rl :: IsRequestLine(line, rl)
  {
    var split := SplitRequestLine(line);
    if split.Some? && Acceptable(split.value) {
      RequestLineSound(line, split.value);
    }
    if rl :| IsRequestLine(line, rl) {
      RequestLineComplete(line, rl);
    }
  }

  /** The parser accepts exactly the grammar. */
  lemma ParseAccepts(raw: string)
    ensures ParseRequest(raw).Some? <==> Grammatical(raw)
  {
    if raw != "" && LineEnd(raw, 0) <= MAX_LENGTH {
      var line, pos := StripCr(raw[..LineEnd(raw, 0)]), LineNext(raw, 0);
      RequestLineAccepted(line);
      HeadersExact(raw, pos);
      var split, headers := SplitRequestLine(line), ReadHeaders(raw, pos, 0, map[], MAX_LENGTH);
      if split.Some? && headers.Some? {
        FinishExact(split.value, headers.value, FieldLines(raw, pos));
      }
    }
  }

  /** What the parser returns describes the lines it read. */
  lemma ParseDescribes(raw: string)
    requires ParseRequest(raw).Some?
    ensures raw != "" && AllFieldLines(FieldLines(raw, LineNext(raw, 0)))
    ensures Describes(ParseRequest(raw).value, raw)
  {
    var line, pos := StripCr(raw[..LineEnd(raw, 0)]), LineNext(raw, 0);
    var rl, headers := SplitRequestLine(line).value, ReadHeaders(raw, pos, 0, map[], MAX_LENGTH).value;
    HeadersExact(raw, pos);
    RequestLineSound(line, rl);
    FinishExact(rl, headers, FieldLines(raw, pos));
    KeepAliveIsCloseFirst(rl.version, headers, FieldLines(raw, pos));
  }
}
