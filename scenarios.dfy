/** The example captions for the classifier, each proved to get its category.
    Each lemma takes its caption as a parameter equal to the literal, and splits the
    caption in an `assert ... by {}` block: stated on the literal directly, the
    solver unfolds the string functions on it and runs out of resources. */
module CategoryScenarios {
  import opened PyStr
  import opened FoodCategory

  /** Scenario: "a bunch of bananas on a table" is Fruit. */
  lemma BananasAreFruit(c: string)
    requires c == "a bunch of bananas on a table"
    ensures CategorizeFood(c) == "Fruit"
  {
    assert c == "a bunch of " + FruitWords[1] + "s on a table" by {}
    KeywordsAreLowercase();
    FruitWinsInAnyCase(c, "a bunch of ", FruitWords[1], "s on a table");
  }

  /** Scenario: "a bottle of orange juice" is Fruit, not Beverage: the priority of
      the lists decides, not which keyword comes first in the caption. */
  lemma OrangeJuiceIsFruit(c: string)
    requires c == "a bottle of orange juice"
    ensures CategorizeFood(c) == "Fruit"
  {
    assert c == "a bottle of " + FruitWords[2] + " juice" by {}
    KeywordsAreLowercase();
    FruitWinsInAnyCase(c, "a bottle of ", FruitWords[2], " juice");
  }

  /** Matching is by substring, not by whole word: "pineapple" contains "apple". */
  lemma PineappleIsFruit(c: string)
    requires c == "a slice of pineapple"
    ensures CategorizeFood(c) == "Fruit"
  {
    assert c == "a slice of pine" + FruitWords[0] + "" by {}
    KeywordsAreLowercase();
    FruitWinsInAnyCase(c, "a slice of pine", FruitWords[0], "");
  }

  /** Scenario: "a red car" mentions no keyword and is Unknown. */
  lemma RedCarIsUnknown(c: string)
    requires c == "a red car"
    ensures CategorizeFood(c) == "Unknown"
  {
    assert Lower(c) == c by { LowerOfLowercase(c); }
    assert !Mentions(FruitWords, c) by { NoneMentioned(FruitWords, c, [1, 0, 0, 0, 0]); }
    assert !Mentions(VegetableWords, c) by { NoneMentioned(VegetableWords, c, [0, 4, 0, 0]); }
    assert !Mentions(BeverageWords, c) by { NoneMentioned(BeverageWords, c, [0, 1, 0, 0, 2]); }
    assert !Mentions(SnackWords, c) by { NoneMentioned(SnackWords, c, [1, 0, 1, 0]); }
  }

  /** Matching is by substring: "drinking" contains "drink", so a caption with no
      fruit or vegetable keyword that says "drinking" is a Beverage. */
  lemma DrinkingIsBeverage(c: string)
    requires c == "drinking water"
    ensures CategorizeFood(c) == "Beverage"
  {
    assert !Mentions(FruitWords, Lower(c)) by {
      LowerOfLowercase(c);
      NoneMentioned(FruitWords, c, [1, 0, 0, 3, 0]);
    }
    assert !Mentions(VegetableWords, Lower(c)) by {
      LowerOfLowercase(c);
      NoneMentioned(VegetableWords, c, [0, 0, 0, 0]);
    }
    assert Mentions(BeverageWords, Lower(c)) by {
      assert c == "" + BeverageWords[4] + "ing water" by {}
      KeywordsAreLowercase();
      KeywordInAnyCase(BeverageWords, "", BeverageWords[4], "ing water");
    }
  }
}
