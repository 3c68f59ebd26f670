/**
 The regular expression matcher of grep.c (after chapter 9 of The Practice of Programming): literal
 characters, `.`, `*`, a leading `^` and a trailing `$`.  The patterns get a meaning of their own, a set of
 words, and match() is proved to find exactly the texts with a substring of that meaning.  C strings are
 sequences without their terminator.
 */
module Grep {

  // ---------------------------------------------------------------- meaning

  /** One element of a pattern; the character '.' stands for any character. */
  datatype Item = One(c: char) | Star(c: char) | AtEnd

  /** `*` binds to the character before it, whatever that is, before a last `$` is read as an anchor. */
  function Parse(re: string): seq<Item> {
    if re == [] then []
    else if |re| >= 2 && re[1] == '*' then [Star(re[0])] + Parse(re[2..])
    else if re == "$" then [AtEnd]
    else [One(re[0])] + Parse(re[1..])
  }

  predicate CharOk(c: char, x: char) { c == '.' || c == x }

  /** The words an item stands for; at tells whether the word ends where the text ends. */
  predicate InItem(item: Item, w: string, at: bool) {
    match item
    case One(c) => |w| == 1 && CharOk(c, w[0])
    case Star(c) => forall x :: x in w ==> CharOk(c, x)
    case AtEnd => w == [] && at
  }

  function Concat(parts: seq<string>): string {
    if parts == [] then [] else parts[0] + Concat(parts[1..])
  }

  predicate PartsOf(items: seq<Item>, parts: seq<string>, at: bool) {
    |parts| == |items| && forall k :: 0 <= k < |items| ==> InItem(items[k], parts[k], at)
  }

  /** The words a pattern stands for: one word per item, in order, put together. */
  ghost predicate InPattern(items: seq<Item>, w: string, at: bool) {
    exists parts :: PartsOf(items, parts, at) && Concat(parts) == w
  }

  /** The pattern matches text[i..j]. */
  ghost predicate MatchesAt(re: string, text: string, i: int, j: int)
    requires 0 <= i <= j <= |text|
  {
    InPattern(Parse(re), text[i..j], j == |text|)
  }

  /** The pattern matches a prefix of text. */
  ghost predicate Here(re: string, text: string) {
    exists j :: 0 <= j <= |text| && MatchesAt(re, text, 0, j)
  }

  /** grep.c's notion of a matching text: some substring does, the first position only after `^`. */
  ghost predicate Matching(re: string, text: string) {
    if re != [] && re[0] == '^' then Here(re[1..], text)
    else exists i, j :: 0 <= i <= j <= |text| && MatchesAt(re, text, i, j)
  }

  // ---------------------------------------------------------------- taking a pattern apart

  lemma EmptyPattern(w: string, at: bool)
    ensures InPattern([], w, at) <==> w == []
  {
    if w == [] {
      assert PartsOf([], [], at) && Concat([]) == w;
    }
  }

  lemma Glue(item: Item, items: seq<Item>, w: string, k: nat, at: bool)
    requires k <= |w| && InItem(item, w[..k], at) && InPattern(items, w[k..], at)
    ensures InPattern([item] + items, w, at)
  {
    var parts :| PartsOf(items, parts, at) && Concat(parts) == w[k..];
    var all := [w[..k]] + parts;
    assert all[1..] == parts && w == w[..k] + w[k..];
    assert PartsOf([item] + items, all, at) && Concat(all) == w;
  }

  lemma Cut(item: Item, items: seq<Item>, w: string, at: bool) returns (k: nat)
    requires InPattern([item] + items, w, at)
    ensures k <= |w| && InItem(item, w[..k], at) && InPattern(items, w[k..], at)
  {
    var parts :| PartsOf([item] + items, parts, at) && Concat(parts) == w;
    k := |parts[0]|;
    assert w[..k] == parts[0] && w[k..] == Concat(parts[1..]);
    assert ([item] + items)[0] == item && ([item] + items)[1..] == items;
    assert PartsOf(items, parts[1..], at) by {
      forall i | 0 <= i < |items|
        ensures InItem(items[i], parts[1..][i], at)
      {
        assert items[i] == ([item] + items)[i + 1];
      }
    }
  }

  /** c* followed by re matches a prefix of text after k characters that c allows. */
  ghost predicate StarHere(c: char, re: string, text: string, k: int)
    requires 0 <= k <= |text|
  {
    (forall i :: 0 <= i < k ==> CharOk(c, text[i])) && Here(re, text[k..])
  }

  lemma HereFrom(re: string, text: string, k: nat, j: nat)
    requires k <= j <= |text|
    ensures MatchesAt(re, text[k..], 0, j - k) <==> MatchesAt(re, text, k, j)
  {
    assert text[k..][0..j - k] == text[k..j];
  }

  lemma HereEmpty(text: string)
    ensures Here("", text)
  {
    EmptyPattern(text[0..0], 0 == |text|);
    assert MatchesAt("", text, 0, 0);
  }

  lemma HereStar(re: string, text: string)
    requires |re| >= 2 && re[1] == '*'
    ensures Here(re, text) <==> exists k :: 0 <= k <= |text| && StarHere(re[0], re[2..], text, k)
  {
    if Here(re, text) {
      var k := StarSplits(re, text);
    }
    if exists k :: 0 <= k <= |text| && StarHere(re[0], re[2..], text, k) {
      var k :| 0 <= k <= |text| && StarHere(re[0], re[2..], text, k);
      StarJoins(re, text, k);
    }
  }

  lemma StarSplits(re: string, text: string) returns (k: nat)
    requires |re| >= 2 && re[1] == '*' && Here(re, text)
    ensures k <= |text| && StarHere(re[0], re[2..], text, k)
  {
    var c, rest := re[0], re[2..];
    var j :| 0 <= j <= |text| && MatchesAt(re, text, 0, j);
    k := Cut(Star(c), Parse(rest), text[0..j], j == |text|);
    assert text[0..j][..k] == text[..k] && text[0..j][k..] == text[k..j];
    HereFrom(rest, text, k, j);
    assert forall i :: 0 <= i < k ==> text[i] in text[..k];
  }

  lemma StarJoins(re: string, text: string, k: nat)
    requires |re| >= 2 && re[1] == '*' && k <= |text| && StarHere(re[0], re[2..], text, k)
    ensures Here(re, text)
  {
    var c, rest := re[0], re[2..];
    var j :| 0 <= j <= |text[k..]| && MatchesAt(rest, text[k..], 0, j);
    HereFrom(rest, text, k, k + j);
    assert text[0..k + j][..k] == text[..k] && text[0..k + j][k..] == text[k..k + j];
    Glue(Star(c), Parse(rest), text[0..k + j], k, k + j == |text|);
    assert MatchesAt(re, text, 0, k + j);
  }

  lemma HereEnd(text: string)
    ensures Here("$", text) <==> text == []
  {
    if Here("$", text) {
      var j :| 0 <= j <= |text| && MatchesAt("$", text, 0, j);
      assert Parse("$") == [AtEnd] + [];
      var k := Cut(AtEnd, [], text[0..j], j == |text|);
      EmptyPattern(text[0..j][k..], j == |text|);
    }
    if text == [] {
      EmptyPattern(text[0..0][0..], true);
      Glue(AtEnd, [], text[0..0], 0, true);
      assert MatchesAt("$", text, 0, 0);
    }
  }

  lemma HereOne(re: string, text: string)
    requires re != [] && !(|re| >= 2 && re[1] == '*') && re != "$"
    ensures Here(re, text) <==> text != [] && CharOk(re[0], text[0]) && Here(re[1..], text[1..])
  {
    if Here(re, text) {
      var j :| 0 <= j <= |text| && MatchesAt(re, text, 0, j);
      var k := Cut(One(re[0]), Parse(re[1..]), text[0..j], j == |text|);
      assert text[0..j][..k] == text[..k] && text[0..j][k..] == text[k..j];
      HereFrom(re[1..], text, 1, j);
    }
    if text != [] && CharOk(re[0], text[0]) && Here(re[1..], text[1..]) {
      var j :| 0 <= j <= |text[1..]| && MatchesAt(re[1..], text[1..], 0, j);
      HereFrom(re[1..], text, 1, 1 + j);
      assert text[0..1 + j][..1] == text[..1] && text[0..1 + j][1..] == text[1..1 + j];
      Glue(One(re[0]), Parse(re[1..]), text[0..1 + j], 1, 1 + j == |text|);
      assert MatchesAt(re, text, 0, 1 + j);
    }
  }

  // ---------------------------------------------------------------- grep.c

  method MatchHere(re: string, text: string) returns (found: bool)
    ensures found <==> Here(re, text)
    decreases |re|, 0
  {
    if re == [] {
      HereEmpty(text);
      return true;
    }
    if |re| >= 2 && re[1] == '*' {
      HereStar(re, text);
      found := MatchStar(re[0], re[2..], text);
      return;
    }
    if re == "$" {
      HereEnd(text);
      return text == [];
    }
    HereOne(re, text);
    if text != [] && (re[0] == '.' || re[0] == text[0]) {
      found := MatchHere(re[1..], text[1..]);
      return;
    }
    return false;
  }

  method MatchStar(c: char, re: string, text: string) returns (found: bool)
    ensures found <==> exists k :: 0 <= k <= |text| && StarHere(c, re, text, k)
    decreases |re|, 1
  {
    var k := 0;
    while true
      invariant 0 <= k <= |text|
      invariant forall i :: 0 <= i < k ==> CharOk(c, text[i])
      invariant forall i :: 0 <= i < k ==> !StarHere(c, re, text, i)
      decreases |text| - k
    {
      found := MatchHere(re, text[k..]);
      if found {
        assert StarHere(c, re, text, k);
        return;
      }
      assert !StarHere(c, re, text, k);
      if !(k < |text| && (text[k] == c || c == '.')) {
        return;
      }
      k := k + 1;
    }
  }

  method Match(re: string, text: string) returns (found: bool)
    ensures found <==> Matching(re, text)
  {
    if re != [] && re[0] == '^' {
      found := MatchHere(re[1..], text);
      return;
    }
    var i := 0;
    while true
      invariant 0 <= i <= |text|
      invariant forall k, j :: 0 <= k < i && k <= j <= |text| ==> !MatchesAt(re, text, k, j)
      decreases |text| - i
    {
      found := MatchHere(re, text[i..]);
      if found {
        ghost var j :| 0 <= j <= |text[i..]| && MatchesAt(re, text[i..], 0, j);
        HereFrom(re, text, i, i + j);
        return;
      }
      forall j | i <= j <= |text|
        ensures !MatchesAt(re, text, i, j)
      {
        HereFrom(re, text, i, j);
      }
      if i == |text| {
        return;
      }
      i := i + 1;
    }
  }
}
