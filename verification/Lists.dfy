/** Comma-separated header values, and the joining of repeated header lines. */
module Lists {
  import opened Options
  import opened Text

  /** The elements of a list header from position k on: comma-split pieces without surrounding blanks. */
  function ElementsFrom(value: string, k: nat): (r: seq<string>)
    requires k <= |value|
    ensures |r| >= 1
    decreases |value| - k
  {
    match IndexOf(value, ',', k)
    case None => [Trim(value[k..])]
    case Some(i) => [Trim(value[k..i])] + ElementsFrom(value, i + 1)
  }

  function Elements(value: string): (r: seq<string>)
    ensures |r| >= 1
  {
    ElementsFrom(value, 0)
  }

  /** Header lines of one name, combined the way the parser combines them. */
  function JoinValues(values: seq<string>): string
    requires values != []
  {
    if |values| == 1 then values[0] else JoinValues(values[..|values| - 1]) + ", " + values[|values| - 1]
  }

  /** All elements of all lines of one name, in order. */
  function AllElements(values: seq<string>): seq<string> {
    if values == [] then [] else AllElements(values[..|values| - 1]) + Elements(values[|values| - 1])
  }

  /** Searching past a prefix is searching the text alone. */
  lemma IndexOfShift(prefix: string, s: string, c: char, k: nat)
    ensures IndexOf(prefix + s, c, |prefix| + k)
         == (match IndexOf(s, c, k) case None => None case Some(i) => Some(|prefix| + i))
    decreases |s| - k
  {
    if k < |s| {
      assert (prefix + s)[|prefix| + k] == s[k];
      if s[k] != c {
        IndexOfShift(prefix, s, c, k + 1);
      }
    }
  }

  lemma SliceShift(prefix: string, s: string, i: nat, j: nat)
    requires i <= j <= |s|
    ensures (prefix + s)[|prefix| + i..|prefix| + j] == s[i..j]
  {
  }

  /** Elements that start after a given prefix are those of the text alone. */
  lemma {:induction false} ElementsShift(prefix: string, s: string, k: nat)
    requires k <= |s|
    ensures ElementsFrom(prefix + s, |prefix| + k) == ElementsFrom(s, k)
    decreases |s| - k
  {
    hide Trim, IndexOf;
    IndexOfShift(prefix, s, ',', k);
    var cut := IndexOf(s, ',', k);
    if cut.None? {
      assert (prefix + s)[|prefix| + k..] == s[k..];
    } else {
      SliceShift(prefix, s, k, cut.value);
      ElementsShift(prefix, s, cut.value + 1);
    }
  }

  lemma IndexOfBeforeComma(a: string, b: string, k: nat)
    requires k <= |a|
    ensures IndexOf(a + "," + b, ',', k)
         == (if IndexOf(a, ',', k).None? then Some(|a|) else IndexOf(a, ',', k))
    decreases |a| - k
  {
    var whole := a + "," + b;
    if k < |a| {
      assert whole[k] == a[k];
      if a[k] != ',' {
        IndexOfBeforeComma(a, b, k + 1);
      }
    } else {
      assert whole[|a|] == ',';
    }
  }

  /** The first element ends at the first comma, or is all there is. */
  lemma ElementsCut(s: string, k: nat)
    requires k <= |s|
    ensures var cut := IndexOf(s, ',', k);
            ElementsFrom(s, k) == if cut.None? then [Trim(s[k..])] else [Trim(s[k..cut.value])] + ElementsFrom(s, cut.value + 1)
  {
    hide Trim, IndexOf;
  }

  /** Pieces with a comma between each two. */
  function CommaJoined(pieces: seq<string>): string
    requires pieces != []
  {
    if |pieces| == 1 then pieces[0] else pieces[0] + "," + CommaJoined(pieces[1..])
  }

  /** The elements of a list are what lies between its commas, without the blanks around it. */
  lemma {:induction false} ElementsAre(value: string, k: nat) returns (pieces: seq<string>)
    requires k <= |value|
    ensures pieces != [] && CommaJoined(pieces) == value[k..] && forall i :: 0 <= i < |pieces| ==> ',' !in pieces[i]
    ensures |ElementsFrom(value, k)| == |pieces|
    ensures forall i :: 0 <= i < |pieces| ==> ElementsFrom(value, k)[i] == Trim(pieces[i])
    decreases |value| - k
  {
    hide Trim, IndexOf, ElementsFrom;
    ElementsCut(value, k);
    IndexOfIsFirst(value, ',', k);
    var cut := IndexOf(value, ',', k);
    if cut.None? {
      pieces := [value[k..]];
    } else {
      var rest := ElementsAre(value, cut.value + 1);
      pieces := [value[k..cut.value]] + rest;
      assert pieces[1..] == rest;
      assert value[k..] == value[k..cut.value] + "," + value[cut.value + 1..];
    }
  }

  /** The elements up to a comma, then those after it. */
  lemma {:induction false} ElementsAppend(a: string, b: string, k: nat)
    requires k <= |a|
    ensures ElementsFrom(a + "," + b, k) == ElementsFrom(a, k) + Elements(b)
    decreases |a| - k
  {
    hide Trim, IndexOf, ElementsFrom;
    var whole := a + "," + b;
    IndexOfBeforeComma(a, b, k);
    ElementsCut(a, k);
    ElementsCut(whole, k);
    var cut := IndexOf(a, ',', k);
    if cut.None? {
      assert whole[k..|a|] == a[k..];
      assert ElementsFrom(whole, |a| + 1) == Elements(b) by {
        ElementsShift(a + ",", b, 0);
      }
    } else {
      assert whole[k..cut.value] == a[k..cut.value];
      ElementsAppend(a, b, cut.value + 1);
      Grouped(Trim(a[k..cut.value]), ElementsFrom(a, cut.value + 1), Elements(b));
    }
  }

  lemma Grouped(head: string, middle: seq<string>, rest: seq<string>)
    ensures [head] + (middle + rest) == ([head] + middle) + rest
  {
  }

  /** Only the first element gains a blank put in front of a list. */
  lemma ElementsBlankFront(value: string)
    ensures Elements(" " + value) == Elements(value)
  {
    hide Trim, ElementsFrom;
    var s := " " + value;
    ElementsCut(s, 0);
    ElementsCut(value, 0);
    IndexOfShift(" ", value, ',', 0);
    var cut := IndexOf(value, ',', 0);
    assert IndexOf(s, ',', 0) == IndexOf(s, ',', 1);
    if cut.None? {
      assert s[0..] == s && value[0..] == value;
      TrimBlankFront(value);
    } else {
      assert s[0..cut.value + 1] == " " + value[0..cut.value];
      TrimBlankFront(value[0..cut.value]);
      ElementsShift(" ", value, cut.value + 1);
    }
  }

  /** Joining two header values with a comma concatenates their element lists. */
  lemma ElementsOfJoin(a: string, b: string)
    ensures Elements(a + ", " + b) == Elements(a) + Elements(b)
  {
    assert a + ", " + b == a + "," + (" " + b);
    ElementsAppend(a, " " + b, 0);
    ElementsBlankFront(b);
  }

  /** The elements of the combined header are the elements of all its lines. */
  lemma {:induction false} ElementsOfJoinValues(values: seq<string>)
    requires values != []
    ensures Elements(JoinValues(values)) == AllElements(values)
  {
    var front, last := values[..|values| - 1], values[|values| - 1];
    if |values| == 1 {
      assert AllElements(front) == [];
    } else {
      ElementsOfJoinValues(front);
      ElementsOfJoin(JoinValues(front), last);
    }
  }

  /** Some element, in lower case, is the token. */
  predicate HasLowered(elements: seq<string>, token: string) {
    exists i :: 0 <= i < |elements| && ToLower(elements[i]) == token
  }

  lemma HasLoweredCons(head: string, rest: seq<string>, token: string)
    ensures HasLowered([head] + rest, token) <==> ToLower(head) == token || HasLowered(rest, token)
  {
    var all := [head] + rest;
    assert all[0] == head;
    if i :| 0 <= i < |rest| && ToLower(rest[i]) == token {
      assert all[i + 1] == rest[i];
    }
    if i :| 0 <= i < |all| && ToLower(all[i]) == token {
      assert i == 0 || all[i] == rest[i - 1];
    }
  }

  lemma HasLoweredOne(head: string, token: string)
    ensures HasLowered([head], token) <==> ToLower(head) == token
  {
    assert [head][0] == head;
  }

  /** The scanning loop of hasConnectionToken and hasHeaderToken. */
  method HasElement(value: string, token: string) returns (found: bool)
    ensures found <==> HasLowered(Elements(value), token)
  {
    hide Trim, IndexOf, HasLowered;
    var tokenStart := 0;
    while tokenStart <= |value|
      invariant tokenStart <= |value|
      invariant HasLowered(Elements(value), token) <==> HasLowered(ElementsFrom(value, tokenStart), token)
      decreases |value| - tokenStart
    {
      var tokenEnd := IndexOf(value, ',', tokenStart);
      if tokenEnd.None? {
        HasLoweredOne(Trim(value[tokenStart..]), token);
        return ToLower(Trim(value[tokenStart..])) == token;
      }
      var current := Trim(value[tokenStart..tokenEnd.value]);
      HasLoweredCons(current, ElementsFrom(value, tokenEnd.value + 1), token);
      if ToLower(current) == token {
        return true;
      }
      tokenStart := tokenEnd.value + 1;
    }
    assert false;
    return false;
  }
}
