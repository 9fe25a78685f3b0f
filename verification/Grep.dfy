/** grep's matcher: literals, '.', 'c*', leading '^' and trailing '$', against the language a
    pattern denotes. C strings are sequences without their terminating zero. */
module Grep {

  datatype Item = Lit(c: char) | Star(c: char) | End

  /** The pattern after a leading '^', item by item. */
  function Items(re: string): seq<Item> {
    if re == "" then []
    else if |re| >= 2 && re[1] == '*' then [Star(re[0])] + Items(re[2..])
    else if re == "$" then [End]
    else [Lit(re[0])] + Items(re[1..])
  }

  predicate Fits(c: char, x: char) { c == '.' || c == x }

  ghost predicate AllFit(c: char, w: string) { forall j :: 0 <= j < |w| ==> Fits(c, w[j]) }

  /** The words the items denote. */
  ghost predicate Lang(items: seq<Item>, w: string)
    decreases |items|
  {
    if items == [] then w == ""
    else
      match items[0]
      case Lit(c) => w != "" && Fits(c, w[0]) && Lang(items[1..], w[1..])
      case Star(c) => exists k :: 0 <= k <= |w| && AllFit(c, w[..k]) && Lang(items[1..], w[k..])
      case End => Lang(items[1..], w)
  }

  ghost predicate Anchored(items: seq<Item>) { items != [] && items[|items| - 1].End? }

  /** text[..n] is a word of the items, and all of the text if they end in '$'. */
  ghost predicate PrefixIs(items: seq<Item>, text: string, n: nat) {
    n <= |text| && Lang(items, text[..n]) && (Anchored(items) ==> n == |text|)
  }

  /** Some prefix of the text is a word of the items. */
  ghost predicate Here(items: seq<Item>, text: string) { exists n: nat :: PrefixIs(items, text, n) }

  /** The text contains a word of the pattern, at the start for '^' and at the end for '$'. */
  ghost predicate Matches(re: string, text: string) {
    if re != "" && re[0] == '^' then Here(Items(re[1..]), text)
    else exists i: nat, j: nat :: i <= j <= |text| && Found(Items(re), text, i, j)
  }

  ghost predicate Found(items: seq<Item>, text: string, i: nat, j: nat)
    requires i <= j <= |text|
  { Lang(items, text[i..j]) && (Anchored(items) ==> j == |text|) }

  lemma HereNone(text: string)
    ensures Here([], text)
  {
    assert text[..0] == "";
    assert PrefixIs([], text, 0);
  }

  lemma HereEnd(text: string)
    ensures Here([End], text) <==> text == ""
  {
    assert [End][1..] == [];
    if text == "" { assert PrefixIs([End], text, 0); }
    if n: nat :| PrefixIs([End], text, n) { assert text[..n] == ""; }
  }

  lemma AnchoredTail(item: Item, items: seq<Item>)
    requires !item.End?
    ensures Anchored([item] + items) <==> Anchored(items)
  {}

  lemma HereLit(c: char, items: seq<Item>, text: string)
    ensures Here([Lit(c)] + items, text) <==> text != "" && Fits(c, text[0]) && Here(items, text[1..])
  {
    var all := [Lit(c)] + items;
    assert all[1..] == items;
    AnchoredTail(Lit(c), items);
    if n: nat :| PrefixIs(all, text, n) {
      assert n > 0 && text[..n][1..] == text[1..][..n - 1];
      assert PrefixIs(items, text[1..], n - 1);
    }
    if text != "" && Fits(c, text[0]) && Here(items, text[1..]) {
      var n: nat :| PrefixIs(items, text[1..], n);
      assert text[..n + 1][1..] == text[1..][..n];
      assert PrefixIs(all, text, n + 1);
    }
  }

  /** A run of k characters that fit, and then the rest of the pattern. */
  ghost predicate RunThen(c: char, items: seq<Item>, text: string, k: nat) {
    k <= |text| && AllFit(c, text[..k]) && Here(items, text[k..])
  }

  lemma HereStar(c: char, items: seq<Item>, text: string)
    ensures Here([Star(c)] + items, text) <==> exists k: nat :: RunThen(c, items, text, k)
  {
    var all := [Star(c)] + items;
    assert all[1..] == items;
    AnchoredTail(Star(c), items);
    if n: nat :| PrefixIs(all, text, n) {
      var k :| 0 <= k <= n && AllFit(c, text[..n][..k]) && Lang(items, text[..n][k..]);
      assert text[..n][..k] == text[..k] && text[..n][k..] == text[k..][..n - k];
      assert PrefixIs(items, text[k..], n - k);
      assert RunThen(c, items, text, k);
    }
    if k: nat :| RunThen(c, items, text, k) {
      var n: nat :| PrefixIs(items, text[k..], n);
      assert text[..k + n][..k] == text[..k] && text[..k + n][k..] == text[k..][..n];
      assert PrefixIs(all, text, k + n);
    }
  }

  /** matchhere: does the pattern match at the beginning of the text? */
  method MatchHere(re: string, text: string) returns (r: bool)
    ensures r <==> Here(Items(re), text)
    decreases |re|, 0
  {
    if re == "" {
      HereNone(text);
      return true;
    }
    if |re| >= 2 && re[1] == '*' {
      r := MatchStar(re[0], re[2..], text);
      return;
    }
    if re[0] == '$' && |re| == 1 {
      HereEnd(text);
      return text == "";
    }
    HereLit(re[0], Items(re[1..]), text);
    if text != "" && (re[0] == '.' || re[0] == text[0]) {
      r := MatchHere(re[1..], text[1..]);
      return;
    }
    return false;
  }

  /** matchstar: does c* followed by the pattern match at the beginning of the text? */
  method MatchStar(c: char, re: string, text: string) returns (r: bool)
    ensures r <==> Here([Star(c)] + Items(re), text)
    decreases |re|, 1
  {
    HereStar(c, Items(re), text);
    var t := 0;
    while true
      invariant t <= |text| && AllFit(c, text[..t])
      invariant forall k: nat :: k < t ==> !RunThen(c, Items(re), text, k)
      decreases |text| - t
    {
      var found := MatchHere(re, text[t..]);
      if found {
        assert RunThen(c, Items(re), text, t);
        return true;
      }
      if t == |text| || !(text[t] == c || c == '.') {
        assert forall k: nat :: t < k <= |text| ==> text[..k][t] == text[t];
        return false;
      }
      t := t + 1;
    }
  }

  lemma HereAt(items: seq<Item>, text: string, i: nat)
    requires i <= |text|
    ensures Here(items, text[i..]) <==> exists j: nat :: i <= j <= |text| && Found(items, text, i, j)
  {
    if n: nat :| PrefixIs(items, text[i..], n) {
      assert text[i..][..n] == text[i..i + n];
      assert Found(items, text, i, i + n);
    }
    if j: nat :| i <= j <= |text| && Found(items, text, i, j) {
      assert text[i..][..j - i] == text[i..j];
      assert PrefixIs(items, text[i..], j - i);
    }
  }

  /** match. */
  method Match(re: string, text: string) returns (r: bool)
    ensures r <==> Matches(re, text)
  {
    if re != "" && re[0] == '^' {
      r := MatchHere(re[1..], text);
      return;
    }
    var t := 0;
    while true
      invariant t <= |text|
      invariant forall i: nat, j: nat :: i < t && i <= j <= |text| ==> !Found(Items(re), text, i, j)
      decreases |text| - t
    {
      var found := MatchHere(re, text[t..]);
      HereAt(Items(re), text, t);
      if found { return true; }
      if t == |text| { return false; }
      t := t + 1;
    }
  }
}
