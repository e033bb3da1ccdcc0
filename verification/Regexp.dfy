/** The regular expression matcher of v3/grep.c.  A C string is the sequence of characters before its NUL. */
module Regexp {
  /** What a pattern is made of: a character or '.', one of these starred, or a final '$'. */
  datatype Item = One(c: char) | Star(c: char) | End

  function Parse(re: string): seq<Item> {
    if re == [] then []
    else if |re| > 1 && re[1] == '*' then [Star(re[0])] + Parse(re[2..])
    else if re == "$" then [End]
    else [One(re[0])] + Parse(re[1..])
  }

  // The denotation: a string is cut into one part for each item

  predicate Fits(c: char, x: char) {
    c == '.' || c == x
  }

  predicate PartOk(item: Item, part: string) {
    match item
    case One(c) => |part| == 1 && Fits(c, part[0])
    case Star(c) => forall i :: 0 <= i < |part| ==> Fits(c, part[i])
    case End => part == []
  }

  function Concat(parts: seq<string>): string {
    if parts == [] then [] else parts[0] + Concat(parts[1..])
  }

  ghost predicate Cut(items: seq<Item>, w: string, parts: seq<string>) {
    |parts| == |items| && Concat(parts) == w && forall i :: 0 <= i < |parts| ==> PartOk(items[i], parts[i])
  }

  /** w is in the language of the items; a '$' asks that the text ends there. */
  ghost predicate Denotes(items: seq<Item>, w: string, atEnd: bool) {
    (exists parts :: Cut(items, w, parts)) && (End in items ==> atEnd)
  }

  /** Some beginning of the text is in the language. */
  ghost predicate Begins(items: seq<Item>, text: string) {
    exists k :: 0 <= k <= |text| && Denotes(items, text[..k], k == |text|)
  }

  /** What match promises: some position, only the first if the pattern starts with '^'. */
  ghost predicate Matches(re: string, text: string) {
    if re != [] && re[0] == '^' then Begins(Parse(re[1..]), text)
    else exists i :: 0 <= i <= |text| && Begins(Parse(re), text[i..])
  }

  // How a beginning is taken apart item by item

  lemma BeginsEmpty(text: string)
    ensures Begins([], text)
  {
    assert Cut([], text[..0], []);
    assert Denotes([], text[..0], 0 == |text|);
  }

  lemma BeginsEnd(text: string)
    ensures Begins([End], text) <==> text == []
  {
    if Begins([End], text) {
      var k :| 0 <= k <= |text| && Denotes([End], text[..k], k == |text|);
      var parts :| Cut([End], text[..k], parts);
      assert Concat(parts) == parts[0] + Concat(parts[1..]) == [];
      assert End in [End];
    }
    if text == [] {
      assert Concat([""]) == "" + Concat([]);
      assert Cut([End], text[..0], [""]);
      assert Denotes([End], text[..0], true);
    }
  }

  lemma CutCons(item: Item, rest: seq<Item>, w: string, j: nat, parts: seq<string>)
    requires j <= |w| && PartOk(item, w[..j]) && Cut(rest, w[j..], parts)
    ensures Cut([item] + rest, w, [w[..j]] + parts)
  {
    var all := [w[..j]] + parts;
    assert all[1..] == parts && w[..j] + w[j..] == w;
    forall i | 0 <= i < |all| ensures PartOk(([item] + rest)[i], all[i]) {
    }
  }

  lemma CutUncons(item: Item, rest: seq<Item>, w: string, parts: seq<string>) returns (j: nat)
    requires Cut([item] + rest, w, parts)
    ensures j <= |w| && PartOk(item, w[..j]) && Cut(rest, w[j..], parts[1..])
  {
    j := |parts[0]|;
    assert w == parts[0] + Concat(parts[1..]);
    assert w[..j] == parts[0] && w[j..] == Concat(parts[1..]);
    assert PartOk(([item] + rest)[0], parts[0]);
    forall i | 0 <= i < |rest| ensures PartOk(rest[i], parts[1..][i]) {
      assert PartOk(([item] + rest)[i + 1], parts[i + 1]);
    }
  }

  /** A beginning for an item and more is one for the item, followed by one for the rest. */
  lemma BeginsCons(item: Item, rest: seq<Item>, text: string)
    requires !item.End?
    ensures Begins([item] + rest, text) <==>
              exists j :: 0 <= j <= |text| && PartOk(item, text[..j]) && Begins(rest, text[j..])
  {
    if Begins([item] + rest, text) {
      var j := BeginsThen(item, rest, text);
    }
    if j :| 0 <= j <= |text| && PartOk(item, text[..j]) && Begins(rest, text[j..]) {
      ThenBegins(item, rest, text, j);
    }
  }

  lemma BeginsThen(item: Item, rest: seq<Item>, text: string) returns (j: nat)
    requires !item.End? && Begins([item] + rest, text)
    ensures j <= |text| && PartOk(item, text[..j]) && Begins(rest, text[j..])
  {
    var k :| 0 <= k <= |text| && Denotes([item] + rest, text[..k], k == |text|);
    var parts :| Cut([item] + rest, text[..k], parts);
    j := CutUncons(item, rest, text[..k], parts);
    assert text[..k][..j] == text[..j] && text[..k][j..] == text[j..][..k - j];
    assert End in rest ==> End in [item] + rest;
    assert Denotes(rest, text[j..][..k - j], k - j == |text[j..]|);
  }

  lemma ThenBegins(item: Item, rest: seq<Item>, text: string, j: nat)
    requires !item.End? && j <= |text| && PartOk(item, text[..j]) && Begins(rest, text[j..])
    ensures Begins([item] + rest, text)
  {
    var k :| 0 <= k <= |text[j..]| && Denotes(rest, text[j..][..k], k == |text[j..]|);
    var parts :| Cut(rest, text[j..][..k], parts);
    var w := text[..j + k];
    assert w[..j] == text[..j] && w[j..] == text[j..][..k];
    CutCons(item, rest, w, j, parts);
    assert End in [item] + rest ==> End in rest;
    assert Denotes([item] + rest, text[..j + k], j + k == |text|);
  }

  lemma BeginsOne(c: char, rest: seq<Item>, text: string)
    ensures Begins([One(c)] + rest, text) <==> text != [] && Fits(c, text[0]) && Begins(rest, text[1..])
  {
    BeginsCons(One(c), rest, text);
    if text != [] && Fits(c, text[0]) && Begins(rest, text[1..]) {
      assert PartOk(One(c), text[..1]);
    }
  }

  // The matcher

  /** matchhere. */
  method MatchHere(re: string, text: string) returns (r: bool)
    ensures r <==> Begins(Parse(re), text)
    decreases |re|, 1
  {
    if re == [] {
      BeginsEmpty(text);
      return true;
    }
    if |re| > 1 && re[1] == '*' {
      r := MatchStar(re[0], re[2..], text);
      return;
    }
    if re[0] == '$' && |re| == 1 {
      BeginsEnd(text);
      return text == [];
    }
    BeginsOne(re[0], Parse(re[1..]), text);
    if text != [] && (re[0] == '.' || re[0] == text[0]) {
      r := MatchHere(re[1..], text[1..]);
      return;
    }
    return false;
  }

  /** matchstar. */
  method MatchStar(c: char, re: string, text: string) returns (r: bool)
    ensures r <==> Begins([Star(c)] + Parse(re), text)
    decreases |re|, 2
  {
    BeginsCons(Star(c), Parse(re), text);
    var i := 0;
    while true
      invariant 0 <= i <= |text| && PartOk(Star(c), text[..i])
      invariant forall j :: 0 <= j < i ==> !Begins(Parse(re), text[j..])
      decreases |text| - i
    {
      var here := MatchHere(re, text[i..]);
      if here {
        return true;
      }
      if !(i < |text| && (text[i] == c || c == '.')) {
        break;
      }
      i := i + 1;
    }
    forall j | i < j <= |text| ensures !PartOk(Star(c), text[..j]) {
      assert text[..j][i] == text[i];
    }
    return false;
  }

  /** match. */
  method Match(re: string, text: string) returns (r: bool)
    ensures r <==> Matches(re, text)
  {
    if re != [] && re[0] == '^' {
      r := MatchHere(re[1..], text);
      return;
    }
    var i := 0;
    while true
      invariant 0 <= i <= |text|
      invariant forall j :: 0 <= j < i ==> !Begins(Parse(re), text[j..])
      decreases |text| - i
    {
      var here := MatchHere(re, text[i..]);
      if here {
        return true;
      }
      if i == |text| {
        break;
      }
      i := i + 1;
    }
    return false;
  }
}
