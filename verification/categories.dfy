/** The static category and figure tables (src/config/categories.ts). */
module Categories {
  import opened Wrappers
  import opened Models

  function Cat(name: string, description: string, keywords: seq<string>): Category {
    Category(name, description, keywords, None)
  }

  function Fig(name: string, description: string, tags: seq<string>): Figure {
    Figure(name, description, None, tags, None)
  }

  const CATEGORIES: seq<Category> := [
    Cat("relationship_conflict", "Navigating disagreements and finding understanding",
        ["conflict", "understanding", "patience", "resolution", "communication"]),
    Cat("breakup_healing", "Recovering from heartbreak and finding self again",
        ["healing", "letting go", "heartbreak", "recovery", "strength"]),
    Cat("self_worth", "Recognizing your own value and standards",
        ["value", "standards", "respect", "confidence", "authenticity"]),
    Cat("loyalty_and_trust", "The importance of faithfulness and honesty",
        ["loyalty", "trust", "faithfulness", "honesty", "integrity"]),
    Cat("effort_imbalance", "Addressing one-sided relationships",
        ["effort", "reciprocity", "balance", "fairness", "investment"]),
    Cat("moving_on", "The courage to leave what no longer serves you",
        ["growth", "change", "past", "future", "courage"]),
    Cat("toxic_relationships", "Identifying and escaping unhealthy patterns",
        ["boundaries", "red flags", "health", "distance", "protection"]),
    Cat("self_growth", "The journey of becoming your best self",
        ["growth", "learning", "evolution", "potential", "becoming"]),
    Cat("discipline", "Doing what needs to be done",
        ["discipline", "consistency", "habits", "focus", "willpower"]),
    Cat("financial_mindset", "Thinking correctly about wealth and success",
        ["money", "wealth", "abundance", "freedom", "investment"]),
    Cat("success_drive", "The ambition to achieve greatness",
        ["ambition", "drive", "goals", "achievement", "hustle"]),
    Cat("friendship_truths", "Real talk about friends and circles",
        ["friendship", "circle", "loyalty", "support", "truth"]),
    Cat("love_and_commitment", "Deep dedication in partnership",
        ["commitment", "dedication", "partnership", "forever", "choice"]),
    Cat("personal_boundaries", "Protecting your energy and space",
        ["boundaries", "space", "energy", "protection", "limits"]),
    Cat("dating_realities", "The modern truth about seeking love",
        ["dating", "modern love", "expectations", "reality", "search"])
  ]

  const FIGURES: seq<Figure> := [
    Fig("Marcus Aurelius", "Roman Emperor and Stoic philosopher",
        ["stoicism", "wisdom", "discipline", "leadership"]),
    Fig("Maya Angelou", "Poet and civil rights activist",
        ["resilience", "courage", "self-growth", "healing"]),
    Fig("Rumi", "Persian poet and Sufi mystic",
        ["love", "spirituality", "wisdom", "healing"]),
    Fig("Eleanor Roosevelt", "Former First Lady and human rights advocate",
        ["courage", "leadership", "self-growth", "empowerment"]),
    Fig("Seneca", "Stoic philosopher",
        ["stoicism", "wisdom", "discipline", "life"]),
    Fig("Buddha", "Spiritual teacher and founder of Buddhism",
        ["wisdom", "peace", "mindfulness", "healing"]),
    Fig("Oprah Winfrey", "Media mogul and philanthropist",
        ["success", "empowerment", "self-growth", "motivation"]),
    Fig("Nelson Mandela", "Anti-apartheid revolutionary and former President",
        ["courage", "leadership", "resilience", "healing"]),
    Fig("Lao Tzu", "Ancient Chinese philosopher",
        ["wisdom", "simplicity", "balance", "life"]),
    Fig("Bren\U{E9} Brown", "Research professor and author",
        ["vulnerability", "courage", "connection", "self-growth"])
  ]

  /** The names of a category list, in order. */
  function CategoryNames(cs: seq<Category>): (r: seq<string>)
    ensures |r| == |cs|
    ensures forall i :: 0 <= i < |cs| ==> r[i] == cs[i].name
  {
    seq(|cs|, i requires 0 <= i < |cs| => cs[i].name)
  }

  /** The category names of the table, in table order. */
  const CATEGORY_NAMES: seq<string> := CategoryNames(CATEGORIES)

  /** The table's names, read off in order. */
  lemma CategoryNamesInOrder()
    ensures CATEGORY_NAMES ==
      ["relationship_conflict", "breakup_healing", "self_worth", "loyalty_and_trust",
       "effort_imbalance", "moving_on", "toxic_relationships", "self_growth", "discipline",
       "financial_mindset", "success_drive", "friendship_truths", "love_and_commitment",
       "personal_boundaries", "dating_realities"]
  {
  }

  predicate Distinct(xs: seq<string>) {
    forall i, j :: 0 <= i < j < |xs| ==> xs[i] != xs[j]
  }

  /** The table has fifteen categories whose names are pairwise distinct, as the
      unique name index of the category store requires. */
  lemma CategoryTableWellFormed()
    ensures |CATEGORIES| == 15
    ensures Distinct(CategoryNames(CATEGORIES))
    ensures forall i :: 0 <= i < |CATEGORIES| ==> |CATEGORIES[i].keywords| == 5
  {
  }

  /** The figure table has ten figures, distinct names, four tags each. */
  lemma FigureTableWellFormed()
    ensures |FIGURES| == 10
    ensures forall i, j :: 0 <= i < j < |FIGURES| ==> FIGURES[i].name != FIGURES[j].name
    ensures forall i :: 0 <= i < |FIGURES| ==> |FIGURES[i].tags| == 4
  {
  }
}
