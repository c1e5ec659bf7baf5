/**
 grep.c's matcher. A string is its characters before the terminating NUL; text pointers
 are suffixes. The meaning of a pattern is given apart from the algorithm: a pattern is
 a list of items, and it matches a text at its start when the text is cut into pieces
 that fit the items one by one.
 */
module Grep {
  datatype Item = One(c: char) | Many(c: char) | End

  function Parse(re: string): seq<Item> {
    if re == "" then []
    else if |re| >= 2 && re[1] == '*' then [Many(re[0])] + Parse(re[2..])
    else if re == "$" then [End]
    else [One(re[0])] + Parse(re[1..])
  }

  predicate Admits(c: char, x: char) {
    c == '.' || c == x
  }

  predicate Fits(item: Item, piece: string) {
    match item
    case One(c) => |piece| == 1 && Admits(c, piece[0])
    case Many(c) => forall i :: 0 <= i < |piece| ==> Admits(c, piece[i])
    case End => piece == ""
  }

  function Flatten(pieces: seq<string>): string {
    if pieces == [] then "" else pieces[0] + Flatten(pieces[1..])
  }

  /** The pieces fit the items and start the text; with a final End they are all of it. */
  ghost predicate Splits(items: seq<Item>, pieces: seq<string>, text: string) {
    && |pieces| == |items|
    && (forall i :: 0 <= i < |items| ==> Fits(items[i], pieces[i]))
    && Flatten(pieces) <= text
    && (End in items ==> Flatten(pieces) == text)
  }

  ghost predicate Decomposes(items: seq<Item>, text: string) {
    exists pieces :: Splits(items, pieces, text)
  }

  /** The first k characters fit the first item and the rest of the items take it from there. */
  ghost predicate CutAt(item: Item, rest: seq<Item>, text: string, k: nat) {
    k <= |text| && Fits(item, text[..k]) && Decomposes(rest, text[k..])
  }

  ghost predicate CutSomewhere(item: Item, rest: seq<Item>, text: string) {
    exists k: nat :: CutAt(item, rest, text, k)
  }

  lemma CutFirst(item: Item, rest: seq<Item>, pieces: seq<string>, text: string)
    requires item != End && Splits([item] + rest, pieces, text)
    ensures |pieces| >= 1 && CutAt(item, rest, text, |pieces[0]|)
  {
    var items := [item] + rest;
    var k := |pieces[0]|;
    assert Fits(items[0], pieces[0]);
    assert text[..k] == pieces[0];
    assert forall i :: 0 <= i < |rest| ==> items[i + 1] == rest[i];
    assert End in rest ==> End in items;
    assert Flatten(pieces) == pieces[0] + Flatten(pieces[1..]);
    assert text[..|Flatten(pieces)|] == Flatten(pieces);
    assert text[k..][..|Flatten(pieces[1..])|] == Flatten(pieces[1..]);
    assert Splits(rest, pieces[1..], text[k..]);
  }

  lemma CutBack(item: Item, rest: seq<Item>, text: string, k: nat)
    requires item != End && CutAt(item, rest, text, k)
    ensures Decomposes([item] + rest, text)
  {
    var pieces :| Splits(rest, pieces, text[k..]);
    var all := [text[..k]] + pieces;
    assert all[1..] == pieces;
    assert text == text[..k] + text[k..];
    assert Splits([item] + rest, all, text);
  }

  /** A pattern matches exactly when some cut after its first item works. */
  lemma DecomposesCons(item: Item, rest: seq<Item>, text: string)
    requires item != End
    ensures Decomposes([item] + rest, text) <==> CutSomewhere(item, rest, text)
  {
    if Decomposes([item] + rest, text) {
      var pieces :| Splits([item] + rest, pieces, text);
      CutFirst(item, rest, pieces, text);
    }
    if k: nat :| CutAt(item, rest, text, k) {
      CutBack(item, rest, text, k);
    }
  }

  lemma DecomposesNil(text: string)
    ensures Decomposes([], text)
  {
    assert Splits([], [], text);
  }

  lemma DecomposesEnd(text: string)
    ensures Decomposes([End], text) <==> text == ""
  {
    if text == "" {
      assert Splits([End], [""], text);
    }
    if pieces :| Splits([End], pieces, text) {
      assert Fits([End][0], pieces[0]);
      assert Flatten(pieces) == pieces[0] + Flatten(pieces[1..]);
    }
  }

  // ---------------------------------------------------------------- patterns, character by character

  /** The character of a pattern stands for that one of the text. */
  predicate Agrees(c: char, text: string, i: nat)
    requires i < |text|
  {
    c == '.' || c == text[i]
  }

  /** Characters one by one at the start of the text; at its end too, if anchored. */
  ghost predicate LinesUp(cs: string, anchored: bool, text: string) {
    && |cs| <= |text| && (anchored ==> |cs| == |text|)
    && forall i: nat :: i < |cs| ==> Agrees(cs[i], text, i)
  }

  ghost predicate Anchored(re: string) {
    |re| > 0 && re[|re| - 1] == '$'
  }

  ghost function Body(re: string): string {
    if Anchored(re) then re[..|re| - 1] else re
  }

  lemma LinesUpCons(re: string, text: string)
    requires re != "" && re != "$"
    ensures Anchored(re[1..]) == Anchored(re)
    ensures LinesUp(Body(re), Anchored(re), text) <==>
              text != "" && Agrees(re[0], text, 0) && LinesUp(Body(re[1..]), Anchored(re), text[1..])
  {
    var b, tail := Body(re), Body(re[1..]);
    assert b == [re[0]] + tail;
    if LinesUp(b, Anchored(re), text) {
      assert Agrees(b[0], text, 0);
      forall i: nat | i < |tail| ensures Agrees(tail[i], text[1..], i) {
        assert Agrees(b[i + 1], text, i + 1);
      }
    }
    if text != "" && Agrees(re[0], text, 0) && LinesUp(tail, Anchored(re), text[1..]) {
      forall i: nat | i < |b| ensures Agrees(b[i], text, i) {
        assert i > 0 ==> Agrees(tail[i - 1], text[1..], i - 1);
      }
    }
  }

  /** A pattern without stars is its characters in a row, a dot for any, a last $ for the end. */
  lemma {:induction false} StarlessMatch(re: string, text: string)
    requires forall i :: 1 <= i < |re| ==> re[i] != '*'
    ensures Decomposes(Parse(re), text) <==> LinesUp(Body(re), Anchored(re), text)
    decreases |re|
  {
    if re == "" {
      DecomposesNil(text);
    } else if re == "$" {
      DecomposesEnd(text);
    } else {
      var rest := Parse(re[1..]);
      LinesUpCons(re, text);
      DecomposesCons(One(re[0]), rest, text);
      assert Parse(re) == [One(re[0])] + rest;
      if text != "" {
        StarlessMatch(re[1..], text[1..]);
        assert text[..1] == [text[0]];
        assert CutAt(One(re[0]), rest, text, 1) <==> Agrees(re[0], text, 0) && Decomposes(rest, text[1..]);
      }
    }
  }

  /** c* in front of a pattern takes any number of that character, or with a dot of any. */
  lemma StarMatch(c: char, re: string, text: string)
    ensures Decomposes(Parse([c, '*'] + re), text) <==>
              exists k: nat :: k <= |text| && (forall i: nat :: i < k ==> Agrees(c, text, i))
                               && Decomposes(Parse(re), text[k..])
  {
    var all := [c, '*'] + re;
    assert all[2..] == re;
    DecomposesCons(Many(c), Parse(re), text);
    forall k: nat | k <= |text|
      ensures Fits(Many(c), text[..k]) <==> forall i: nat :: i < k ==> Agrees(c, text, i)
    {
      if Fits(Many(c), text[..k]) {
        forall i: nat | i < k ensures Agrees(c, text, i) {
          assert Admits(c, text[..k][i]);
        }
      }
      if forall i: nat :: i < k ==> Agrees(c, text, i) {
        forall i: nat | i < k ensures Admits(c, text[..k][i]) {
          assert Agrees(c, text, i);
        }
      }
    }
    if k: nat :| CutAt(Many(c), Parse(re), text, k) {
      assert Decomposes(Parse(re), text[k..]);
    }
    if k: nat :| k <= |text| && (forall i: nat :: i < k ==> Agrees(c, text, i)) && Decomposes(Parse(re), text[k..]) {
      assert CutAt(Many(c), Parse(re), text, k);
    }
  }

  /** match: true iff the pattern matches at some start, which ^ pins to 0. */
  method Match(re: string, text: string) returns (found: bool)
    ensures found <==> if |re| > 0 && re[0] == '^' then Decomposes(Parse(re[1..]), text)
                       else exists s: nat :: s <= |text| && Decomposes(Parse(re), text[s..])
  {
    if |re| > 0 && re[0] == '^' {
      found := MatchHere(re[1..], text);
      return;
    }
    var s: nat := 0;
    while true
      invariant s <= |text|
      invariant forall r: nat :: r < s ==> !Decomposes(Parse(re), text[r..])
      decreases |text| - s
    {
      var here := MatchHere(re, text[s..]);
      if here {
        return true;
      }
      if s == |text| {
        return false;
      }
      s := s + 1;
    }
  }

  /** matchhere: sound and complete for a match at the start of the text. */
  method MatchHere(re: string, text: string) returns (found: bool)
    ensures found <==> Decomposes(Parse(re), text)
    decreases |re|, 0
  {
    if re == "" {
      DecomposesNil(text);
      return true;
    }
    if |re| >= 2 && re[1] == '*' {
      DecomposesCons(Many(re[0]), Parse(re[2..]), text);
      found := MatchStar(re[0], re[2..], text);
      return;
    }
    if re[0] == '$' && |re| == 1 {
      DecomposesEnd(text);
      return text == "";
    }
    ghost var rest := Parse(re[1..]);
    DecomposesCons(One(re[0]), rest, text);
    assert Parse(re) == [One(re[0])] + rest;
    if text != "" && (re[0] == '.' || re[0] == text[0]) {
      assert Fits(One(re[0]), text[..1]);
      found := MatchHere(re[1..], text[1..]);
      assert found ==> CutAt(One(re[0]), rest, text, 1);
      return;
    }
    return false;
  }

  /** matchstar: c* takes a run of characters it admits, then the pattern goes on. */
  method MatchStar(c: char, re: string, text: string) returns (found: bool)
    ensures found <==> CutSomewhere(Many(c), Parse(re), text)
    decreases |re|, 1
  {
    var t: nat := 0;
    while true
      invariant t <= |text|
      invariant forall i :: 0 <= i < t ==> Admits(c, text[i])
      invariant forall k: nat :: k < t ==> !CutAt(Many(c), Parse(re), text, k)
      decreases |text| - t
    {
      var here := MatchHere(re, text[t..]);
      if here {
        assert CutAt(Many(c), Parse(re), text, t);
        return true;
      }
      if t == |text| || !(text[t] == c || c == '.') {
        forall k: nat ensures !CutAt(Many(c), Parse(re), text, k) {
          if t < k <= |text| {
            assert text[..k][t] == text[t];
          }
        }
        return false;
      }
      t := t + 1;
    }
  }
}
