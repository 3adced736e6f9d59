/** The regular-expression matcher of grep.c against a language of texts cut into pieces. */
module Grep {

  /** What a pattern is made of. End is a `$` that ends the pattern. */
  datatype Item = One(c: char) | Star(c: char) | End

  /** A star belongs to the character before it, so a first `*`, or one after another star, stands for itself. */
  function Parse(re: string): (items: seq<Item>) {
    if re == "" then []
    else if |re| > 1 && re[1] == '*' then [Star(re[0])] + Parse(re[2..])
    else if re == "$" then [End]
    else [One(re[0])] + Parse(re[1..])
  }

  predicate Fits(c: char, x: char) { c == '.' || c == x }

  predicate AllFit(c: char, text: string) { forall i :: 0 <= i < |text| ==> Fits(c, text[i]) }

  /** The piece of text from a to b is one that the item stands for. */
  predicate Piece(item: Item, text: string, a: nat, b: nat)
    requires a <= b <= |text|
  {
    match item
    case One(c) => b == a + 1 && Fits(c, text[a])
    case Star(c) => AllFit(c, text[a..b])
    case End => a == b == |text|
  }

  /** The cuts take consecutive pieces off the front of the text, one for each item. */
  ghost predicate Splits(items: seq<Item>, text: string, cuts: seq<nat>) {
    && |cuts| == |items| + 1 && cuts[0] == 0
    && forall i :: 0 <= i < |items| ==> PieceAt(items, text, cuts, i)
  }

  ghost predicate PieceAt(items: seq<Item>, text: string, cuts: seq<nat>, i: nat)
    requires |cuts| == |items| + 1 && i < |items|
  {
    cuts[i] <= cuts[i + 1] <= |text| && Piece(items[i], text, cuts[i], cuts[i + 1])
  }

  /** The items match some first part of the text. */
  ghost predicate Begins(items: seq<Item>, text: string) { exists cuts :: Splits(items, text, cuts) }

  /** The language: a leading `^` ties the match to the start of the text. */
  ghost predicate Matches(re: string, text: string) {
    if re != "" && re[0] == '^' then Begins(Parse(re[1..]), text)
    else exists k :: 0 <= k <= |text| && Begins(Parse(re), text[k..])
  }

  // ----- one item at a time -----

  lemma BeginsNothing(text: string)
    ensures Begins([], text)
  {
    assert Splits([], text, [0]);
  }

  lemma SplitFirst(items: seq<Item>, text: string, cuts: seq<nat>)
    requires items != [] && Splits(items, text, cuts)
    ensures cuts[1] <= |text| && Piece(items[0], text, 0, cuts[1]) && Begins(items[1..], text[cuts[1]..])
  {
    var k := cuts[1];
    assert PieceAt(items, text, cuts, 0);
    Rising(items, text, cuts, |items|);
    var rest := seq(|items|, i requires 0 <= i < |items| => if cuts[i + 1] >= k then cuts[i + 1] - k else 0);
    forall i | 0 <= i < |items| - 1 ensures PieceAt(items[1..], text[k..], rest, i) {
      assert PieceAt(items, text, cuts, i + 1);
      Rising(items, text, cuts, i + 1);
      assert text[k..][rest[i]..rest[i + 1]] == text[cuts[i + 1]..cuts[i + 2]];
    }
    assert Splits(items[1..], text[k..], rest);
  }

  lemma {:induction false} Rising(items: seq<Item>, text: string, cuts: seq<nat>, i: nat)
    requires Splits(items, text, cuts) && 1 <= i <= |items|
    ensures cuts[1] <= cuts[i]
  {
    if i > 1 {
      Rising(items, text, cuts, i - 1);
      assert PieceAt(items, text, cuts, i - 1);
    }
  }

  lemma SplitMore(item: Item, rest: seq<Item>, text: string, k: nat)
    requires k <= |text| && Piece(item, text, 0, k) && Begins(rest, text[k..])
    ensures Begins([item] + rest, text)
  {
    var cuts :| Splits(rest, text[k..], cuts);
    var items := [item] + rest;
    var all := [0] + seq(|cuts|, i requires 0 <= i < |cuts| => cuts[i] + k);
    forall i | 0 <= i < |items| ensures PieceAt(items, text, all, i) {
      if i > 0 {
        assert PieceAt(rest, text[k..], cuts, i - 1);
        assert text[k..][cuts[i - 1]..cuts[i]] == text[all[i]..all[i + 1]];
      }
    }
    assert Splits(items, text, all);
  }

  /** The first item takes some piece and the rest match what is left. */
  lemma BeginsIff(item: Item, rest: seq<Item>, text: string)
    ensures Begins([item] + rest, text) <==>
              exists k :: 0 <= k <= |text| && Piece(item, text, 0, k) && Begins(rest, text[k..])
  {
    if Begins([item] + rest, text) {
      var cuts :| Splits([item] + rest, text, cuts);
      SplitFirst([item] + rest, text, cuts);
      assert ([item] + rest)[1..] == rest;
    }
    if k :| 0 <= k <= |text| && Piece(item, text, 0, k) && Begins(rest, text[k..]) {
      SplitMore(item, rest, text, k);
    }
  }

  lemma OneIff(c: char, rest: seq<Item>, text: string)
    ensures Begins([One(c)] + rest, text) <==> text != "" && Fits(c, text[0]) && Begins(rest, text[1..])
  {
    hide Begins;
    BeginsIff(One(c), rest, text);
    if text != "" && Fits(c, text[0]) { assert Piece(One(c), text, 0, 1); }
  }

  lemma EndIff(text: string)
    ensures Begins([End], text) <==> text == ""
  {
    BeginsIff(End, [], text);
    assert [End] + [] == [End];
    if text == "" { BeginsNothing(text[0..]); assert Piece(End, text, 0, 0); }
  }

  lemma StarIff(c: char, rest: seq<Item>, text: string)
    ensures Begins([Star(c)] + rest, text) <==>
              exists k :: 0 <= k <= |text| && AllFit(c, text[..k]) && Begins(rest, text[k..])
  {
    hide Begins;
    BeginsIff(Star(c), rest, text);
    forall k | 0 <= k <= |text| ensures Piece(Star(c), text, 0, k) == AllFit(c, text[..k]) {
      assert text[0..k] == text[..k];
    }
  }

  // ----- the code -----

  method MatchHere(re: string, text: string) returns (found: bool)
    ensures found <==> Begins(Parse(re), text)
    decreases |re|, 0
  {
    hide Begins;
    if re == "" {
      BeginsNothing(text);
      return true;
    }
    if |re| > 1 && re[1] == '*' {
      found := MatchStar(re[0], re[2..], text);
      return;
    }
    if re[0] == '$' && |re| == 1 {
      assert re == "$";
      EndIff(text);
      return text == "";
    }
    OneIff(re[0], Parse(re[1..]), text);
    if text != "" && (re[0] == '.' || re[0] == text[0]) {
      found := MatchHere(re[1..], text[1..]);
      return;
    }
    found := false;
  }

  method MatchStar(c: char, re: string, text: string) returns (found: bool)
    ensures found <==> Begins([Star(c)] + Parse(re), text)
    decreases |re|, 1
  {
    hide Begins;
    StarIff(c, Parse(re), text);
    var k := 0;
    while true
      invariant k <= |text| && AllFit(c, text[..k])
      invariant forall j :: 0 <= j < k ==> !Begins(Parse(re), text[j..])
      decreases |text| - k
    {
      var here := MatchHere(re, text[k..]);
      if here { return true; }
      if k == |text| || !(text[k] == c || c == '.') { break; }
      k := k + 1;
    }
    forall j | 0 <= j <= |text| && AllFit(c, text[..j]) ensures !Begins(Parse(re), text[j..]) {
      if j > k { assert text[..j][k] == text[k]; }
    }
    found := false;
  }

  method Match(re: string, text: string) returns (found: bool)
    ensures found <==> Matches(re, text)
  {
    hide Begins;
    if re != "" && re[0] == '^' {
      found := MatchHere(re[1..], text);
      return;
    }
    var k := 0;
    while true
      invariant k <= |text| && forall j :: 0 <= j < k ==> !Begins(Parse(re), text[j..])
      decreases |text| - k
    {
      var here := MatchHere(re, text[k..]);
      if here { return true; }
      if k == |text| { break; }
      k := k + 1;
    }
    found := false;
  }
}
