/** `categorize_food`: the keyword classifier that turns a generated caption into
    one of five food categories. */
module FoodCategory {
  import opened PyStr

  datatype Category = Fruit | Vegetable | Beverage | Snack | Unknown

  /** The keyword lists, checked in this order. */
  const FruitWords: seq<string> := ["apple", "banana", "orange", "grape", "fruit"]
  const VegetableWords: seq<string> := ["lettuce", "carrot", "broccoli", "vegetable"]
  const BeverageWords: seq<string> := ["soda", "coke", "juice", "bottle", "drink"]
  const SnackWords: seq<string> := ["chips", "snack", "cookie", "biscuit"]

  /** Some keyword of `words` occurs somewhere in `c`. */
  ghost predicate Mentions(words: seq<string>, c: string) {
    exists k :: 0 <= k < |words| && Occurs(words[k], c)
  }

  /** `any(w in c for w in words)`: the keywords are tried left to right. */
  function AnyIn(words: seq<string>, c: string): (r: bool)
    ensures r <==> Mentions(words, c)
  {
    if words == [] then false
    else if Contains(c, words[0]) then true
    else
      var r := AnyIn(words[1..], c);
      assert forall k :: 1 <= k < |words| ==> words[k] == words[1..][k - 1];
      r
  }

  /** The category of a caption: the first keyword list, in priority order, that
      has a keyword in the lower-cased caption; `Unknown` if none has. */
  function Classify(caption: string): (r: Category)
    ensures r == Fruit <==> Mentions(FruitWords, Lower(caption))
    ensures r == Vegetable <==>
      !Mentions(FruitWords, Lower(caption)) && Mentions(VegetableWords, Lower(caption))
    ensures r == Beverage <==>
      !Mentions(FruitWords, Lower(caption)) && !Mentions(VegetableWords, Lower(caption))
      && Mentions(BeverageWords, Lower(caption))
    ensures r == Snack <==>
      !Mentions(FruitWords, Lower(caption)) && !Mentions(VegetableWords, Lower(caption))
      && !Mentions(BeverageWords, Lower(caption)) && Mentions(SnackWords, Lower(caption))
    ensures r == Unknown <==>
      !Mentions(FruitWords, Lower(caption)) && !Mentions(VegetableWords, Lower(caption))
      && !Mentions(BeverageWords, Lower(caption)) && !Mentions(SnackWords, Lower(caption))
  {
    var c := Lower(caption);
    if AnyIn(FruitWords, c) then Fruit
    else if AnyIn(VegetableWords, c) then Vegetable
    else if AnyIn(BeverageWords, c) then Beverage
    else if AnyIn(SnackWords, c) then Snack
    else Unknown
  }

  /** The label string the service returns for a category. */
  function Label(cat: Category): string {
    match cat
    case Fruit => "Fruit"
    case Vegetable => "Vegetable"
    case Beverage => "Beverage"
    case Snack => "Snack"
    case Unknown => "Unknown"
  }

  /** `categorize_food(caption)`: always one of the five labels, and the label
      names the category the caption is classified into. */
  function CategorizeFood(caption: string): (r: string)
    ensures r in {"Fruit", "Vegetable", "Beverage", "Snack", "Unknown"}
    ensures r == "Fruit" <==> Mentions(FruitWords, Lower(caption))
    ensures r == "Vegetable" <==>
      !Mentions(FruitWords, Lower(caption)) && Mentions(VegetableWords, Lower(caption))
    ensures r == "Beverage" <==>
      !Mentions(FruitWords, Lower(caption)) && !Mentions(VegetableWords, Lower(caption))
      && Mentions(BeverageWords, Lower(caption))
    ensures r == "Snack" <==>
      !Mentions(FruitWords, Lower(caption)) && !Mentions(VegetableWords, Lower(caption))
      && !Mentions(BeverageWords, Lower(caption)) && Mentions(SnackWords, Lower(caption))
    ensures r == "Unknown" <==>
      !Mentions(FruitWords, Lower(caption)) && !Mentions(VegetableWords, Lower(caption))
      && !Mentions(BeverageWords, Lower(caption)) && !Mentions(SnackWords, Lower(caption))
  {
    Label(Classify(caption))
  }

  /** Every keyword is written in lower case, so lower-casing the caption never
      hides a keyword that the caption spells in upper case. */
  lemma KeywordsAreLowercase()
    ensures forall k :: 0 <= k < |FruitWords| ==> Lower(FruitWords[k]) == FruitWords[k]
    ensures forall k :: 0 <= k < |VegetableWords| ==> Lower(VegetableWords[k]) == VegetableWords[k]
    ensures forall k :: 0 <= k < |BeverageWords| ==> Lower(BeverageWords[k]) == BeverageWords[k]
    ensures forall k :: 0 <= k < |SnackWords| ==> Lower(SnackWords[k]) == SnackWords[k]
  {
  }

  /** Matching ignores case: a caption and its lower-cased form get the same category. */
  lemma CaseInsensitive(caption: string)
    ensures Classify(Lower(caption)) == Classify(caption)
  {
    LowerIdempotent(caption);
  }

  /** A keyword written in any mix of upper and lower case anywhere in a caption
      is found in the lower-cased caption. */
  lemma KeywordInAnyCase(words: seq<string>, pre: string, v: string, post: string)
    requires Lower(v) in words
    ensures Mentions(words, Lower(pre + v + post))
  {
    LowerAppend(pre + v, post);
    LowerAppend(pre, v);
    OccursInMiddle(Lower(pre), Lower(v), Lower(post));
    var k :| 0 <= k < |words| && words[k] == Lower(v);
    assert Occurs(words[k], Lower(pre + v + post));
  }

  /** A keyword none of whose positions `js[k]` holds a character found in `hay`
      cannot occur in `hay`; so no keyword of `words` is mentioned. */
  lemma NoneMentioned(words: seq<string>, hay: string, js: seq<nat>)
    requires |js| == |words|
    requires forall k :: 0 <= k < |words| ==> js[k] < |words[k]| && words[k][js[k]] !in hay
    ensures !Mentions(words, hay)
  {
  }

  /** Fruit has top priority: a caption holding a fruit keyword, in any case and
      anywhere, is Fruit whatever other keywords it contains. */
  lemma FruitWinsInAnyCase(caption: string, pre: string, v: string, post: string)
    requires caption == pre + v + post
    requires Lower(v) in FruitWords
    ensures CategorizeFood(caption) == "Fruit"
  {
    KeywordInAnyCase(FruitWords, pre, v, post);
  }
}
