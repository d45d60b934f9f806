/** The posting pipeline (src/services/QuoteService.ts): weighted category choice,
    generation, the uniqueness and opening-word filters, rendering, publishing and
    storing, retried up to five times. `Math.random` is a list of rolls in [0, 1);
    the card renderer, the Facebook upload and the insert are given as the results
    they produce; the clock is a timestamp per attempt. */
module QuoteService {
  import opened Wrappers
  import opened Strings
  import opened Models
  import opened Categories
  import CategoryRepository
  import PostRepository
  import UniquenessService
  import OpenRouterService

  const BRAND_ATTRIBUTIONS: seq<string> :=
    ["Anonymous", "Modern Life Notes", "Relationship Truths", "Daily Reminder", "Real Talk"]
  const BRAND_NAME: string := "Limitless Mindset"
  const MAX_ATTEMPTS: nat := 5
  const RECENT_OPENINGS: nat := 10
  const BANNED_OPENINGS: seq<string> := ["Sometimes", "One", "Stop", "Walk", "Never", "Always"]
  const MAX_ATTEMPTS_FAILED: string := "Failed to create post after maximum attempts"

  // ---------------------------------------------------------------------------
  // Weighted category choice

  datatype Group = Relationship | SelfWorth | Ambition | Friendship | Healing

  /** `Math.floor(roll * n)` for a roll in [0, 1): an index into a list of `n`. */
  function PickIndex(roll: real, n: nat): (i: nat)
    requires 0.0 <= roll < 1.0 && 0 < n
    ensures i < n
    ensures i as real <= roll * n as real < i as real + 1.0
  {
    var x := roll * n as real;
    assert x < n as real;
    x.Floor
  }

  /** Every index can be drawn: the roll `i / n` picks `i`. */
  lemma PickReachesAll(i: nat, n: nat)
    requires i < n
    ensures PickIndex(i as real / n as real, n) == i
  {
    var roll := i as real / n as real;
    assert roll * n as real == i as real;
  }

  /** The group of a roll, by the if-chain on `Math.random() * 100`. */
  function GroupOf(roll: real): Group {
    var rand := roll * 100.0;
    if rand < 40.0 then Relationship
    else if rand < 65.0 then SelfWorth
    else if rand < 80.0 then Ambition
    else if rand < 90.0 then Friendship
    else Healing
  }

  /** The intended share of each group, in percent. */
  function Weight(g: Group): real {
    match g
    case Relationship => 40.0
    case SelfWorth => 25.0
    case Ambition => 15.0
    case Friendship => 10.0
    case Healing => 10.0
  }

  /** The groups in the order the if-chain tests them. */
  const GROUP_ORDER: seq<Group> := [Relationship, SelfWorth, Ambition, Friendship, Healing]

  /** The total weight of the groups before `k` in `GROUP_ORDER`. */
  function WeightBefore(k: nat): real
    requires k <= |GROUP_ORDER|
  {
    if k == 0 then 0.0 else WeightBefore(k - 1) + Weight(GROUP_ORDER[k - 1])
  }

  /** The weights add up to 100 %. */
  lemma WeightsSumToHundred()
    ensures WeightBefore(|GROUP_ORDER|) == 100.0
  {
    assert WeightBefore(1) == 40.0;
    assert WeightBefore(2) == 65.0;
    assert WeightBefore(3) == 80.0;
    assert WeightBefore(4) == 90.0;
  }

  /** The if-chain gives each group exactly its share: a roll lands in group `k` just
      when it falls in the `k`-th band of widths 40, 25, 15, 10, 10. */
  lemma GroupOfIsWeighted(roll: real, k: nat)
    requires 0.0 <= roll < 1.0
    requires k < |GROUP_ORDER|
    ensures GroupOf(roll) == GROUP_ORDER[k] <==>
              WeightBefore(k) <= roll * 100.0 < WeightBefore(k) + Weight(GROUP_ORDER[k])
  {
  }

  /** `categoryMap` (lines 167-173). */
  function GroupNames(g: Group): (r: seq<string>)
    ensures |r| > 0
  {
    match g
    case Relationship => ["relationship_conflict", "love_and_commitment", "effort_imbalance",
                          "dating_realities", "toxic_relationships"]
    case SelfWorth => ["self_worth", "self_growth", "personal_boundaries"]
    case Ambition => ["success_drive", "discipline", "financial_mindset"]
    case Friendship => ["friendship_truths", "loyalty_and_trust"]
    case Healing => ["breakup_healing", "moving_on"]
  }

  /** All group names, group after group. */
  function AllGroupNames(): seq<string> {
    GroupNames(Relationship) + GroupNames(SelfWorth) + GroupNames(Ambition)
    + GroupNames(Friendship) + GroupNames(Healing)
  }

  /** Every group name is a category of the table... */
  lemma GroupNamesAreCategories()
    ensures forall g: Group, i :: 0 <= i < |GroupNames(g)| ==> GroupNames(g)[i] in CATEGORY_NAMES
  {
    CategoryNamesInOrder();
  }

  /** ...and the fifteen group names cover the fifteen distinct categories, so the
      groups partition the table: each category belongs to exactly one group. */
  lemma GroupsCoverCategories()
    ensures |AllGroupNames()| == |CATEGORY_NAMES|
    ensures forall k :: 0 <= k < |CATEGORY_NAMES| ==> CATEGORY_NAMES[k] in AllGroupNames()
  {
    CategoryNamesInOrder();
  }

  /** The rolls one attempt draws from `Math.random`, in call order. */
  datatype Rolls = Rolls(group: real, name: real, fallback: real, attribution: real)

  predicate ValidRolls(r: Rolls) {
    && 0.0 <= r.group < 1.0 && 0.0 <= r.name < 1.0
    && 0.0 <= r.fallback < 1.0 && 0.0 <= r.attribution < 1.0
  }

  /** The category name drawn from the group of the first roll. */
  function SelectedName(rolls: Rolls): (r: string)
    requires ValidRolls(rolls)
    ensures r in GroupNames(GroupOf(rolls.group))
  {
    var names := GroupNames(GroupOf(rolls.group));
    names[PickIndex(rolls.name, |names|)]
  }

  /** Where `selectWeightedCategory` found its category. */
  datatype Selection = FromStore(category: Category) | FromMemory(category: Category) | RandomFallback(category: Category)

  /** `selectWeightedCategory`: the store first, then the built-in table, then any
      category of the table. */
  function SelectWeightedCategory(store: CategoryRepository.CategoryStore, table: seq<Category>, rolls: Rolls): (r: Selection)
    requires ValidRolls(rolls) && |table| > 0
    ensures r.FromStore? <==> CategoryRepository.HasName(store, SelectedName(rolls))
    ensures r.FromMemory? <==>
      !CategoryRepository.HasName(store, SelectedName(rolls)) && SelectedName(rolls) in CategoryNames(table)
    ensures r.FromStore? ==> r.category in store.categories && r.category.name == SelectedName(rolls)
    ensures r.FromMemory? ==> r.category in table && r.category.name == SelectedName(rolls)
    ensures r.RandomFallback? ==> r.category == table[PickIndex(rolls.fallback, |table|)]
  {
    var name := SelectedName(rolls);
    match CategoryRepository.FindByName(store, name)
    case Some(c) => FromStore(c)
    case None =>
      match CategoryRepository.FindNameFrom(table, name)
      case Some(c) =>
        assert name in CategoryNames(table) by {
          var i :| 0 <= i < |table| && table[i].name == name;
          assert CategoryNames(table)[i] == name;
        }
        FromMemory(c)
      case None =>
        RandomFallback(table[PickIndex(rolls.fallback, |table|)])
  }

  /** With the built-in table the last-resort branch never runs and the category always
      carries the drawn name, so the "Failed to select category" error cannot be thrown. */
  lemma SelectionNeverFallsBack(store: CategoryRepository.CategoryStore, rolls: Rolls)
    requires ValidRolls(rolls)
    ensures |CATEGORIES| > 0
    ensures !SelectWeightedCategory(store, CATEGORIES, rolls).RandomFallback?
    ensures SelectWeightedCategory(store, CATEGORIES, rolls).category.name == SelectedName(rolls)
  {
    CategoryTableWellFormed();
    GroupNamesAreCategories();
    var name := SelectedName(rolls);
    var g := GroupOf(rolls.group);
    var i :| 0 <= i < |GroupNames(g)| && GroupNames(g)[i] == name;
    assert name in CategoryNames(CATEGORIES);
  }

  /** The brand attribution of an attempt. */
  function Attribution(rolls: Rolls): (r: string)
    requires ValidRolls(rolls)
    ensures r in BRAND_ATTRIBUTIONS
  {
    BRAND_ATTRIBUTIONS[PickIndex(rolls.attribution, |BRAND_ATTRIBUTIONS|)]
  }

  // ---------------------------------------------------------------------------
  // Opening words

  predicate IsAsciiLetter(c: char) {
    'a' <= c <= 'z' || 'A' <= c <= 'Z'
  }

  /** `s.replace(/[^a-zA-Z]/g, '')`. */
  function Letters(s: string): (r: string)
    ensures |r| <= |s|
    ensures forall i :: 0 <= i < |r| ==> IsAsciiLetter(r[i])
    decreases |s|
  {
    if |s| == 0 then []
    else (if IsAsciiLetter(s[0]) then [s[0]] else []) + Letters(s[1..])
  }

  /** Every letter of `s` is kept, as often as it occurs, and nothing else. */
  lemma {:induction false} LettersKeepsCounts(s: string)
    ensures forall c :: IsAsciiLetter(c) ==> multiset(Letters(s))[c] == multiset(s)[c]
    ensures forall c :: !IsAsciiLetter(c) ==> multiset(Letters(s))[c] == 0
    decreases |s|
  {
    if |s| > 0 {
      LettersKeepsCounts(s[1..]);
      assert s == [s[0]] + s[1..];
      assert multiset(s) == multiset{s[0]} + multiset(s[1..]);
      assert Letters(s) == (if IsAsciiLetter(s[0]) then [s[0]] else []) + Letters(s[1..]);
    }
  }

  /** Removing non-letters keeps the letters in their order. */
  lemma {:induction false} LettersAppend(a: string, b: string)
    ensures Letters(a + b) == Letters(a) + Letters(b)
    decreases |a|
  {
    if |a| > 0 {
      assert (a + b)[0] == a[0];
      assert (a + b)[1..] == a[1..] + b;
      LettersAppend(a[1..], b);
      var head := if IsAsciiLetter(a[0]) then [a[0]] else [];
      assert Letters(a + b) == head + Letters(a[1..] + b);
      assert Letters(a) == head + Letters(a[1..]);
    } else {
      assert a + b == b;
    }
  }

  /** A word of letters only is its own letter string. */
  lemma {:induction false} LettersOfWord(w: string)
    requires forall i :: 0 <= i < |w| ==> IsAsciiLetter(w[i])
    ensures Letters(w) == w
    decreases |w|
  {
    if |w| > 0 {
      LettersOfWord(w[1..]);
      assert w == [w[0]] + w[1..];
    }
  }

  /** The opening word of lines 80 and 126: the letters of the first space-separated
      token of the trimmed quote. */
  function OpeningWord(quote: string): (r: string)
    ensures forall i :: 0 <= i < |r| ==> IsAsciiLetter(r[i])
  {
    Letters(FirstToken(Trim(quote), ' '))
  }

  /** A word of letters followed by a space opens the quote, whatever follows it. */
  lemma OpeningWordOfSentence(w: string, rest: string)
    requires |w| > 0 && forall i :: 0 <= i < |w| ==> IsAsciiLetter(w[i])
    ensures OpeningWord(w + " " + rest) == w
  {
    FirstWordOfSentence(w, rest);
    LettersOfWord(w);
  }

  /** Punctuation glued to the first word does not count. */
  lemma OpeningWordIgnoresPunctuation(pre: string, w: string, post: string, rest: string)
    requires forall i :: 0 <= i < |pre| ==> !IsAsciiLetter(pre[i]) && !IsJsWhitespace(pre[i])
    requires forall i :: 0 <= i < |post| ==> !IsAsciiLetter(post[i]) && !IsJsWhitespace(post[i])
    requires forall i :: 0 <= i < |w| ==> IsAsciiLetter(w[i])
    requires |pre + w + post| > 0
    ensures OpeningWord(pre + w + post + " " + rest) == w
  {
    var word := pre + w + post;
    assert AllSolid(word) by {
      forall i | 0 <= i < |word|
        ensures !IsJsWhitespace(word[i])
      {
        if i < |pre| {
          assert word[i] == pre[i];
        } else if i < |pre| + |w| {
          assert word[i] == w[i - |pre|];
        } else {
          assert word[i] == post[i - |pre| - |w|];
        }
      }
    }
    FirstWordOfSentence(word, rest);
    LettersAppend(pre, w);
    LettersAppend(pre + w, post);
    LettersOfWord(w);
    NoLetters(pre);
    NoLetters(post);
    assert Letters(pre + w) == w;
    assert Letters(word) == w;
  }

  lemma {:induction false} NoLetters(s: string)
    requires forall i :: 0 <= i < |s| ==> !IsAsciiLetter(s[i])
    ensures Letters(s) == ""
    decreases |s|
  {
    if |s| > 0 {
      NoLetters(s[1..]);
    }
  }

  /** The structural-diversity ban list; the comparison is case-sensitive. */
  predicate IsBannedOpening(w: string) {
    w in BANNED_OPENINGS
  }

  /** Whether one of the ten newest posts saved this opening word; posts saved without
      one never match. */
  predicate IsRecentOpening(posts: PostRepository.PostStore, w: string) {
    exists p :: p in PostRepository.FindRecent(posts, RECENT_OPENINGS) && p.openingWord == Some(w)
  }

  // ---------------------------------------------------------------------------
  // Caption

  /** The fixed tags after the category tag. */
  const HASHTAGS: string := " #motivation" + " #inspiration" + " #quotes" + " #dailywisdom"

  /** The credit line of a caption. */
  function Credit(figureName: string): string {
    "\U{2014} Inspired by " + figureName
  }

  /** The hashtag line of a caption. */
  function Tags(category: string): string {
    "#" + category + HASHTAGS
  }

  /** `createCaption`: the quote, a blank line, the credit line, a blank line, and the
      hashtag line. */
  function CreateCaption(quote: string, category: string, figureName: string): (r: string)
    ensures |r| == |quote| + 19 + |figureName| + |category| + |HASHTAGS|
    ensures r[..|quote|] == quote
    ensures r[|r| - |HASHTAGS|..] == HASHTAGS
  {
    quote + "\n\n" + Credit(figureName) + "\n\n" + Tags(category)
  }

  lemma HashtagsOneLine()
    ensures '\n' !in HASHTAGS
  {
    assert '\n' !in " #motivation" && '\n' !in " #inspiration";
    assert '\n' !in " #quotes" && '\n' !in " #dailywisdom";
  }

  /** The credit and the tags are single lines when the names are. */
  lemma CreditAndTagsOneLine(category: string, figureName: string)
    requires '\n' !in category && '\n' !in figureName
    ensures '\n' !in Credit(figureName) && '\n' !in Tags(category)
  {
    HashtagsOneLine();
    assert '\n' !in "\U{2014} Inspired by ";
  }

  /** Read line by line, a caption is the quote's own lines followed by an empty line,
      the credit, an empty line and the tags, when neither name holds a line break. */
  lemma CaptionLines(quote: string, category: string, figureName: string)
    requires '\n' !in category && '\n' !in figureName
    ensures Split(CreateCaption(quote, category, figureName), '\n')
            == Split(quote, '\n') + ["", Credit(figureName), "", Tags(category)]
  {
    CreditAndTagsOneLine(category, figureName);
    SplitBlankSeparated(quote, Credit(figureName), Tags(category));
  }

  /** Splitting `q`, a blank line, `c`, a blank line and `t` on line breaks. */
  lemma SplitBlankSeparated(q: string, c: string, t: string)
    requires '\n' !in c && '\n' !in t
    ensures Split(q + "\n\n" + c + "\n\n" + t, '\n') == Split(q, '\n') + ["", c, "", t]
  {
    var sep := '\n';
    assert q + "\n\n" + c + "\n\n" + t == q + [sep] + ("" + [sep] + (c + [sep] + ("" + [sep] + t)));
    SplitNoSeparator(t, sep);
    SplitNoSeparator(c, sep);
    SplitNoSeparator("", sep);
    SplitAround("", t, sep);
    SplitAround(c, "" + [sep] + t, sep);
    SplitAround("", c + [sep] + ("" + [sep] + t), sep);
    SplitAround(q, "" + [sep] + (c + [sep] + ("" + [sep] + t)), sep);
  }

  // ---------------------------------------------------------------------------
  // One attempt of `createAndPublishPost`

  /** What one attempt's collaborators do, in the order they are asked: the random
      rolls, the completion replies of the inner retry loop, the outcome of rendering
      the card (its path, or the error it throws), of the Facebook upload (the post id,
      or the error it throws), an error the insert throws on its own (a lost
      connection, say), and the two clock reads that date the stored post: `postedAt`,
      then `createdAt`, which need not agree. */
  datatype AttemptScript = AttemptScript(
    rolls: Rolls,
    replies: seq<Option<string>>,
    render: Result<string>,
    publish: Result<string>,
    insertFault: Option<string>,
    postedClock: int,
    createdClock: int)

  /** The uninterpreted collaborators shared by all attempts. */
  datatype Collaborators = Collaborators(
    parsers: OpenRouterService.Parsers,
    hash: string -> string,
    similarity: (string, string) -> real)

  /** The outside effects of an attempt, in order. */
  datatype Effect = Rendered(quote: string) | Published(imagePath: string, caption: string) | Stored(post: Post)

  datatype QuotePostResult = QuotePostResult(
    quote: string, category: string, attribution: string, imagePath: string, facebookPostId: string)

  /** How an attempt ends: posted, one of the three `continue`s, or an exception. */
  datatype Outcome =
    | Posted(result: QuotePostResult)
    | NotUnique
    | BannedOpening(word: string)
    | RepeatedOpening(word: string)
    | Threw(error: string)
  {
    predicate IsSoft() {
      NotUnique? || BannedOpening? || RepeatedOpening?
    }
  }

  datatype AttemptRun = AttemptRun(outcome: Outcome, posts: PostRepository.PostStore, effects: seq<Effect>)

  /** The quote generation of an attempt (`generateQuoteWithRetry` with its default of
      three tries). */
  function Generated(script: AttemptScript, env: Collaborators): Result<OpenRouterService.GeneratedQuoteResult> {
    OpenRouterService.GenerateQuoteWithRetry(script.replies, env.parsers, OpenRouterService.DEFAULT_MAX_RETRIES).result
  }

  /** The three filters a generated quote must pass, in the order they run. */
  predicate PassesFilters(posts: PostRepository.PostStore, quote: string, env: Collaborators) {
    && UniquenessService.IsQuoteUnique(posts, quote, env.hash, env.similarity)
    && !IsBannedOpening(OpeningWord(quote))
    && !IsRecentOpening(posts, OpeningWord(quote))
  }

  /** The post an attempt stores once the upload returned `postId`. */
  function PostOf(script: AttemptScript, env: Collaborators, category: Category,
                  g: OpenRouterService.GeneratedQuoteResult, imagePath: string, postId: string): (p: Post)
    requires ValidRolls(script.rolls)
    ensures p.quote == g.quote && p.category == category.name
    ensures p.figure == Attribution(script.rolls)
    ensures p.hash == UniquenessService.GenerateQuoteHash(g.quote, env.hash)
    ensures p.facebookPostId == Some(postId) && p.imagePath == imagePath
    ensures p.openingWord == Some(OpeningWord(g.quote))
    ensures p.postedAt == script.postedClock && p.createdAt == script.createdClock
    ensures p.qualityScore == Some(g.qualityScore) && p.viralityScore == Some(g.viralityScore)
    ensures p.emotion == Some(g.emotion) && p.generatedReason == Some(g.reason)
    ensures p.tone == None
  {
    Post(g.quote, category.name, Attribution(script.rolls), imagePath,
         UniquenessService.GenerateQuoteHash(g.quote, env.hash), Some(postId), script.postedClock, script.createdClock,
         Some(g.qualityScore), Some(g.viralityScore), Some(g.emotion), Some(g.reason),
         Some(OpeningWord(g.quote)), None)
  }

  /** The category an attempt draws, `table` being the in-memory list (`CATEGORIES`). */
  function AttemptCategory(categories: CategoryRepository.CategoryStore, table: seq<Category>, rolls: Rolls): Category
    requires ValidRolls(rolls) && |table| > 0
  {
    SelectWeightedCategory(categories, table, rolls).category
  }

  /** The body of the `while` loop (lines 51-143) for one script, once the inner retry
      loop has produced `generated`. */
  function RunAttempt(posts: PostRepository.PostStore, category: Category,
                      script: AttemptScript, env: Collaborators,
                      generated: Result<OpenRouterService.GeneratedQuoteResult>): (r: AttemptRun)
    requires ValidRolls(script.rolls)
    // A generation error is thrown; then the filters, in order, end the attempt softly.
    ensures generated.Failure? ==> r == AttemptRun(Threw(generated.error), posts, [])
    ensures r.outcome.NotUnique? <==>
      generated.Success? && !UniquenessService.IsQuoteUnique(posts, generated.value.quote, env.hash, env.similarity)
    ensures r.outcome.BannedOpening? <==>
      && generated.Success?
      && UniquenessService.IsQuoteUnique(posts, generated.value.quote, env.hash, env.similarity)
      && IsBannedOpening(OpeningWord(generated.value.quote))
    ensures r.outcome.RepeatedOpening? <==>
      && generated.Success?
      && UniquenessService.IsQuoteUnique(posts, generated.value.quote, env.hash, env.similarity)
      && !IsBannedOpening(OpeningWord(generated.value.quote))
      && IsRecentOpening(posts, OpeningWord(generated.value.quote))
    ensures r.outcome.BannedOpening? || r.outcome.RepeatedOpening? ==>
      r.outcome.word == OpeningWord(generated.value.quote)
    // Nothing leaves the process until the quote has passed every filter.
    ensures r.effects != [] ==> generated.Success? && PassesFilters(posts, generated.value.quote, env)
    ensures r.outcome.IsSoft() ==> r.effects == []
    // Render, publish, store: each only after the one before succeeded.
    ensures |r.effects| <= 3
    ensures |r.effects| >= 1 ==> r.effects[0] == Rendered(generated.value.quote)
    ensures |r.effects| >= 2 ==>
      && script.render.Success? && script.publish.Success?
      && r.effects[1] == Published(script.render.value,
                                   CreateCaption(generated.value.quote,
                                                 category.name, BRAND_NAME))
    ensures |r.effects| == 3 <==> r.outcome.Posted?
    // Only a posted attempt changes the store, by appending exactly the stored post.
    ensures !r.outcome.Posted? ==> r.posts == posts
    ensures r.outcome.Posted? ==>
      var g := generated.value;
      var post := PostOf(script, env, category, g,
                         script.render.value, script.publish.value);
      && script.insertFault.None?
      && r.effects[2] == Stored(post)
      && r.posts.posts == posts.posts + [post]
      && r.outcome.result == QuotePostResult(g.quote, category.name,
                                             Attribution(script.rolls), script.render.value,
                                             script.publish.value)
    ensures PostRepository.Valid(posts) ==> PostRepository.Valid(r.posts)
    ensures WellBehaved(posts, r)
  {
    match generated
    case Failure(e) => AttemptRun(Threw(e), posts, [])
    case Success(g) =>
      if !UniquenessService.IsQuoteUnique(posts, g.quote, env.hash, env.similarity) then
        AttemptRun(NotUnique, posts, [])
      else
        var w := OpeningWord(g.quote);
        if IsBannedOpening(w) then AttemptRun(BannedOpening(w), posts, [])
        else if IsRecentOpening(posts, w) then AttemptRun(RepeatedOpening(w), posts, [])
        else
          var d := Deliver(posts, category, script, env, g);
          ShapeCounts(d.effects);
          d
  }

  /** Counting the effects of a render-publish-store prefix. */
  lemma ShapeCounts(e: seq<Effect>)
    requires |e| <= 3
    requires |e| >= 1 ==> e[0].Rendered?
    requires |e| >= 2 ==> e[1].Published?
    requires |e| == 3 ==> e[2].Stored?
    ensures CountStored(e) == (if |e| == 3 then 1 else 0)
    ensures CountPublished(e) == (if |e| >= 2 then 1 else 0)
  {
    if |e| > 0 {
      var t := e[1..];
      assert CountStored(e) == CountStored(t) && CountPublished(e) == CountPublished(t);
      if |t| > 0 {
        var u := t[1..];
        assert t[0] == e[1];
        assert CountStored(t) == CountStored(u) && CountPublished(t) == 1 + CountPublished(u);
        if |u| > 0 {
          assert u[0] == e[2];
          assert CountStored(u) == 1 + CountStored(u[1..]) && CountPublished(u) == CountPublished(u[1..]);
        }
      }
    }
  }

  /** Steps 4 to 7 of an attempt whose quote passed the filters: render the card,
      publish it with the caption, store the post. */
  function Deliver(posts: PostRepository.PostStore, category: Category, script: AttemptScript,
                   env: Collaborators, g: OpenRouterService.GeneratedQuoteResult): (r: AttemptRun)
    requires ValidRolls(script.rolls)
    requires PassesFilters(posts, g.quote, env)
    ensures 1 <= |r.effects| <= 3 && r.effects[0] == Rendered(g.quote)
    ensures r.outcome.Posted? || r.outcome.Threw?
    ensures |r.effects| >= 2 ==>
      && script.render.Success? && script.publish.Success?
      && r.effects[1] == Published(script.render.value, CreateCaption(g.quote, category.name, BRAND_NAME))
    ensures |r.effects| == 3 <==> r.outcome.Posted?
    ensures r.outcome.Posted? <==> script.render.Success? && script.publish.Success? && script.insertFault.None?
    ensures !r.outcome.Posted? ==> r.posts == posts
    ensures r.outcome.Posted? ==>
      var post := PostOf(script, env, category, g, script.render.value, script.publish.value);
      && r.effects[2] == Stored(post)
      && r.posts.posts == posts.posts + [post]
      && r.outcome.result == QuotePostResult(g.quote, category.name, Attribution(script.rolls),
                                             script.render.value, script.publish.value)
    ensures PostRepository.Valid(posts) ==> PostRepository.Valid(r.posts)
  {
    match script.render
    case Failure(e) => AttemptRun(Threw(e), posts, [Rendered(g.quote)])
    case Success(imagePath) =>
      var caption := CreateCaption(g.quote, category.name, BRAND_NAME);
      match script.publish
      case Failure(e) => AttemptRun(Threw(e), posts, [Rendered(g.quote)])
      case Success(postId) =>
        var effects := [Rendered(g.quote), Published(imagePath, caption)];
        var post := PostOf(script, env, category, g, imagePath, postId);
        if script.insertFault.Some? then AttemptRun(Threw(script.insertFault.value), posts, effects)
        else
          UniqueQuoteIsInsertable(posts, g.quote, env);
          match PostRepository.Create(posts, post)
          case Failure(e) => AttemptRun(Threw(e), posts, effects)
          case Success(stored) =>
            AttemptRun(Posted(QuotePostResult(g.quote, category.name, Attribution(script.rolls), imagePath, postId)),
                       stored, effects + [Stored(post)])
  }

  /** The uniqueness filter runs against the same store the insert writes to, so the
      unique hash index never rejects a post that passed it. */
  lemma UniqueQuoteIsInsertable(posts: PostRepository.PostStore, quote: string, env: Collaborators)
    ensures UniquenessService.IsQuoteUnique(posts, quote, env.hash, env.similarity) ==>
              !PostRepository.HasHash(posts, UniquenessService.GenerateQuoteHash(quote, env.hash))
  {
  }

  /** Once posted, the same quote is no longer unique. */
  lemma PostedQuoteIsNoLongerUnique(posts: PostRepository.PostStore, category: Category,
                                    script: AttemptScript, env: Collaborators,
                                    generated: Result<OpenRouterService.GeneratedQuoteResult>)
    requires ValidRolls(script.rolls)
    requires RunAttempt(posts, category, script, env, generated).outcome.Posted?
    ensures !UniquenessService.IsQuoteUnique(RunAttempt(posts, category, script, env, generated).posts,
                                             generated.value.quote, env.hash, env.similarity)
  {
    var r := RunAttempt(posts, category, script, env, generated);
    var g := generated.value;
    var post := PostOf(script, env, category, g,
                       script.render.value, script.publish.value);
    assert r.posts.posts[|posts.posts|] == post;
    assert PostRepository.HasHash(r.posts, UniquenessService.GenerateQuoteHash(g.quote, env.hash));
  }

  // ---------------------------------------------------------------------------
  // The attempt loop

  /** One attempt on the store as it stands. */
  function Attempt(posts: PostRepository.PostStore, categories: CategoryRepository.CategoryStore,
                   table: seq<Category>, script: AttemptScript, env: Collaborators): (r: AttemptRun)
    requires ValidRolls(script.rolls) && |table| > 0
    ensures WellBehaved(posts, r)
  {
    RunAttempt(posts, AttemptCategory(categories, table, script.rolls), script, env, Generated(script, env))
  }

  function CountStored(effects: seq<Effect>): nat
    decreases |effects|
  {
    if |effects| == 0 then 0 else (if effects[0].Stored? then 1 else 0) + CountStored(effects[1..])
  }

  function CountPublished(effects: seq<Effect>): nat
    decreases |effects|
  {
    if |effects| == 0 then 0 else (if effects[0].Published? then 1 else 0) + CountPublished(effects[1..])
  }

  lemma {:induction false} CountsAppend(a: seq<Effect>, b: seq<Effect>)
    ensures CountStored(a + b) == CountStored(a) + CountStored(b)
    ensures CountPublished(a + b) == CountPublished(a) + CountPublished(b)
    decreases |a|
  {
    if |a| == 0 {
      assert a + b == b;
    } else {
      assert (a + b)[1..] == a[1..] + b;
      CountsAppend(a[1..], b);
    }
  }

  /** What the loop relies on about an attempt: it publishes at most once and exactly
      once when it posts, stores exactly when it posts, has no effect when it ends
      softly, and leaves the store alone unless it posts. */
  predicate WellBehaved(posts: PostRepository.PostStore, run: AttemptRun) {
    && CountStored(run.effects) == (if run.outcome.Posted? then 1 else 0)
    && CountPublished(run.effects) <= 1
    && (run.outcome.Posted? ==> CountPublished(run.effects) == 1)
    && (run.outcome.IsSoft() ==> run.effects == [])
    && (!run.outcome.Posted? ==> run.posts == posts)
  }

  /** The effects of the first `n` attempts, in order. */
  function Trace(runs: seq<AttemptRun>, n: nat): seq<Effect>
    requires n <= |runs|
    decreases n
  {
    if n == 0 then [] else Trace(runs, n - 1) + runs[n - 1].effects
  }

  /** The outcome of a whole `createAndPublishPost` run: its result, the store after
      it, the effects of all attempts in order, and how each attempt ended. */
  datatype RunResult = RunResult(
    result: Result<QuotePostResult>, posts: PostRepository.PostStore, effects: seq<Effect>, outcomes: seq<Outcome>)

  /** Attempts `attempt`..5 of the loop (lines 47-146). Every attempt before a posted
      one leaves the store as it was, so attempt `k` is `runs[k - 1]`, the run of its
      script on the original store; `effects` and `outcomes` record the attempts
      already made. */
  function Loop(attempt: nat, posts: PostRepository.PostStore, runs: seq<AttemptRun>,
                effects: seq<Effect>, outcomes: seq<Outcome>): (r: RunResult)
    requires 1 <= attempt <= MAX_ATTEMPTS && |runs| == MAX_ATTEMPTS
    requires |outcomes| == attempt - 1
    requires forall k :: 0 <= k < attempt - 1 ==> outcomes[k] == runs[k].outcome && !runs[k].outcome.Posted?
    requires effects == Trace(runs, attempt - 1)
    ensures attempt <= |r.outcomes| <= MAX_ATTEMPTS
    ensures forall k :: 0 <= k < |r.outcomes| ==> r.outcomes[k] == runs[k].outcome
    ensures forall k :: 0 <= k < |r.outcomes| - 1 ==> !r.outcomes[k].Posted?
    ensures r.effects == Trace(runs, |r.outcomes|)
    ensures r.result.Success? <==> r.outcomes[|r.outcomes| - 1].Posted?
    ensures r.result.Success? ==>
      r.result.value == r.outcomes[|r.outcomes| - 1].result && r.posts == runs[|r.outcomes| - 1].posts
    ensures r.result.Failure? ==> |r.outcomes| == MAX_ATTEMPTS && r.posts == posts
    ensures r.result.Failure? ==>
      r.result.error == (if r.outcomes[MAX_ATTEMPTS - 1].Threw? then r.outcomes[MAX_ATTEMPTS - 1].error
                         else MAX_ATTEMPTS_FAILED)
    decreases MAX_ATTEMPTS - attempt
  {
    var run := runs[attempt - 1];
    var effects' := effects + run.effects;
    var outcomes' := outcomes + [run.outcome];
    assert effects' == Trace(runs, attempt);
    assert forall k :: 0 <= k < |outcomes'| ==> outcomes'[k] == runs[k].outcome;
    if run.outcome.Posted? then RunResult(Success(run.outcome.result), run.posts, effects', outcomes')
    else if attempt == MAX_ATTEMPTS then
      RunResult(Failure(if run.outcome.Threw? then run.outcome.error else MAX_ATTEMPTS_FAILED), posts, effects', outcomes')
    else Loop(attempt + 1, posts, runs, effects', outcomes')
  }

  /** Counting over a trace whose attempts all behave: a store only by a last, posting
      attempt, and at most one publication per attempt. */
  lemma {:induction false} TraceCounts(posts: PostRepository.PostStore, runs: seq<AttemptRun>, n: nat)
    requires n <= |runs|
    requires forall k :: 0 <= k < |runs| ==> WellBehaved(posts, runs[k])
    requires forall k :: 0 <= k < n - 1 ==> !runs[k].outcome.Posted?
    ensures CountStored(Trace(runs, n)) == (if n > 0 && runs[n - 1].outcome.Posted? then 1 else 0)
    ensures CountPublished(Trace(runs, n)) <= n
    decreases n
  {
    if n > 0 {
      TraceCounts(posts, runs, n - 1);
      CountsAppend(Trace(runs, n - 1), runs[n - 1].effects);
      assert WellBehaved(posts, runs[n - 1]);
      if n > 1 {
        assert !runs[n - 2].outcome.Posted?;
      }
    }
  }

  /** Attempts that all end softly leave no effect. */
  lemma {:induction false} SoftTraceIsEmpty(posts: PostRepository.PostStore, runs: seq<AttemptRun>, n: nat)
    requires n <= |runs|
    requires forall k :: 0 <= k < |runs| ==> WellBehaved(posts, runs[k])
    requires forall k :: 0 <= k < n ==> runs[k].outcome.IsSoft()
    ensures Trace(runs, n) == []
    decreases n
  {
    if n > 0 {
      SoftTraceIsEmpty(posts, runs, n - 1);
      assert WellBehaved(posts, runs[n - 1]);
    }
  }

  /** The loop over five attempt runs on `posts`. */
  function RunLoop(posts: PostRepository.PostStore, runs: seq<AttemptRun>): (r: RunResult)
    requires |runs| == MAX_ATTEMPTS
    requires forall k :: 0 <= k < |runs| ==> WellBehaved(posts, runs[k])
    ensures 1 <= |r.outcomes| <= MAX_ATTEMPTS
    ensures forall k :: 0 <= k < |r.outcomes| ==> r.outcomes[k] == runs[k].outcome
    ensures forall k :: 0 <= k < |r.outcomes| - 1 ==> !r.outcomes[k].Posted?
    ensures r.effects == Trace(runs, |r.outcomes|)
    ensures r.result.Success? <==> r.outcomes[|r.outcomes| - 1].Posted?
    ensures r.result.Success? ==>
      r.result.value == r.outcomes[|r.outcomes| - 1].result && r.posts == runs[|r.outcomes| - 1].posts
    ensures r.result.Failure? ==> |r.outcomes| == MAX_ATTEMPTS && r.posts == posts
    ensures r.result.Failure? ==>
      r.result.error == (if r.outcomes[MAX_ATTEMPTS - 1].Threw? then r.outcomes[MAX_ATTEMPTS - 1].error
                         else MAX_ATTEMPTS_FAILED)
    ensures CountStored(r.effects) == (if r.result.Success? then 1 else 0)
    ensures CountPublished(r.effects) <= |r.outcomes|
  {
    var r := Loop(1, posts, runs, [], []);
    TraceCounts(posts, runs, |r.outcomes|);
    r
  }

  predicate AllValidRolls(scripts: seq<AttemptScript>) {
    forall i :: 0 <= i < |scripts| ==> ValidRolls(scripts[i].rolls)
  }

  /** Each script run on the original store. */
  function Runs(posts: PostRepository.PostStore, categories: CategoryRepository.CategoryStore,
                table: seq<Category>, scripts: seq<AttemptScript>, env: Collaborators): (runs: seq<AttemptRun>)
    requires AllValidRolls(scripts) && |table| > 0
    ensures |runs| == |scripts|
    ensures forall k :: 0 <= k < |scripts| ==> WellBehaved(posts, runs[k])
  {
    seq(|scripts|, k requires 0 <= k < |scripts| => Attempt(posts, categories, table, scripts[k], env))
  }

  /** Run `k` is script `k` attempted on the original store. */
  lemma RunsAt(posts: PostRepository.PostStore, categories: CategoryRepository.CategoryStore,
               table: seq<Category>, scripts: seq<AttemptScript>, env: Collaborators, k: nat)
    requires AllValidRolls(scripts) && |table| > 0 && k < |scripts|
    ensures Runs(posts, categories, table, scripts, env)[k] == Attempt(posts, categories, table, scripts[k], env)
  {
  }

  /** `createAndPublishPost`: up to five attempts, attempt `k` running script `k` on the
      store as it was when the run began; `table` is the in-memory category list. */
  function CreateAndPublishPost(posts: PostRepository.PostStore, categories: CategoryRepository.CategoryStore,
                                table: seq<Category>, scripts: seq<AttemptScript>, env: Collaborators): (r: RunResult)
    requires |scripts| == MAX_ATTEMPTS && AllValidRolls(scripts) && |table| > 0
    ensures 1 <= |r.outcomes| <= MAX_ATTEMPTS
    ensures var runs := Runs(posts, categories, table, scripts, env);
      && (forall k :: 0 <= k < |r.outcomes| ==> r.outcomes[k] == runs[k].outcome)
      && r.effects == Trace(runs, |r.outcomes|)
      && (r.result.Success? ==> r.posts == runs[|r.outcomes| - 1].posts)
    ensures forall k :: 0 <= k < |r.outcomes| - 1 ==> !r.outcomes[k].Posted?
    ensures r.result.Success? <==> r.outcomes[|r.outcomes| - 1].Posted?
    ensures r.result.Success? ==> r.result.value == r.outcomes[|r.outcomes| - 1].result
    ensures r.result.Failure? ==> |r.outcomes| == MAX_ATTEMPTS && r.posts == posts
    ensures r.result.Failure? ==>
      r.result.error == (if r.outcomes[MAX_ATTEMPTS - 1].Threw? then r.outcomes[MAX_ATTEMPTS - 1].error
                         else MAX_ATTEMPTS_FAILED)
    ensures CountStored(r.effects) == (if r.result.Success? then 1 else 0)
    ensures CountPublished(r.effects) <= |r.outcomes|
  {
    RunLoop(posts, Runs(posts, categories, table, scripts, env))
  }

  /** An upload that succeeds before the insert throws is published but not stored:
      the attempt throws and the store is unchanged. */
  lemma PublishedButNotStored(posts: PostRepository.PostStore, category: Category,
                              script: AttemptScript, env: Collaborators,
                              g: OpenRouterService.GeneratedQuoteResult)
    requires ValidRolls(script.rolls)
    requires PassesFilters(posts, g.quote, env)
    requires script.render.Success? && script.publish.Success? && script.insertFault.Some?
    ensures var r := RunAttempt(posts, category, script, env, Success(g));
      && r.outcome == Threw(script.insertFault.value)
      && r.posts == posts
      && CountPublished(r.effects) == 1 && CountStored(r.effects) == 0
  {
    var r := RunAttempt(posts, category, script, env, Success(g));
    ShapeCounts(r.effects);
  }

  /** The loop does not promise one publication per run: an attempt that published and
      then threw is retried, and a retry that posts publishes again. */
  lemma RetryAfterPublishPublishesTwice(posts: PostRepository.PostStore, runs: seq<AttemptRun>)
    requires |runs| == MAX_ATTEMPTS
    requires forall k :: 0 <= k < |runs| ==> WellBehaved(posts, runs[k])
    requires runs[0].outcome.Threw? && CountPublished(runs[0].effects) == 1 && runs[1].outcome.Posted?
    ensures var r := RunLoop(posts, runs);
      && r.result.Success? && |r.outcomes| == 2
      && CountPublished(r.effects) == 2 && CountStored(r.effects) == 1
  {
    var r := RunLoop(posts, runs);
    assert WellBehaved(posts, runs[0]) && WellBehaved(posts, runs[1]);
    assert r.outcomes[0] == runs[0].outcome;
    assert |r.outcomes| >= 2;
    assert r.outcomes[1] == runs[1].outcome;
    assert |r.outcomes| == 2;
    assert Trace(runs, 1) == Trace(runs, 0) + runs[0].effects == runs[0].effects;
    assert r.effects == Trace(runs, 1) + runs[1].effects;
    CountsAppend(runs[0].effects, runs[1].effects);
  }

  /** Four soft rejections and then a posting attempt: the run succeeds on attempt five. */
  lemma PostsOnTheLastAttempt(posts: PostRepository.PostStore, runs: seq<AttemptRun>)
    requires |runs| == MAX_ATTEMPTS
    requires forall k :: 0 <= k < |runs| ==> WellBehaved(posts, runs[k])
    requires (forall k :: 0 <= k < 4 ==> runs[k].outcome.IsSoft()) && runs[4].outcome.Posted?
    ensures RunLoop(posts, runs).result == Success(runs[4].outcome.result)
    ensures |RunLoop(posts, runs).outcomes| == MAX_ATTEMPTS
    ensures RunLoop(posts, runs).effects == runs[4].effects
  {
    SoftTraceIsEmpty(posts, runs, 4);
    assert Trace(runs, 5) == [] + runs[4].effects;
  }

  /** Five soft rejections: no effect at all, and the generic error. */
  lemma FiveSoftRejections(posts: PostRepository.PostStore, runs: seq<AttemptRun>)
    requires |runs| == MAX_ATTEMPTS
    requires forall k :: 0 <= k < |runs| ==> WellBehaved(posts, runs[k])
    requires forall k :: 0 <= k < MAX_ATTEMPTS ==> runs[k].outcome.IsSoft()
    ensures RunLoop(posts, runs) == RunResult(Failure(MAX_ATTEMPTS_FAILED), posts, [],
                                              [runs[0].outcome, runs[1].outcome, runs[2].outcome,
                                               runs[3].outcome, runs[4].outcome])
  {
    SoftTraceIsEmpty(posts, runs, 5);
    var r := RunLoop(posts, runs);
    assert r.outcomes == [runs[0].outcome, runs[1].outcome, runs[2].outcome, runs[3].outcome, runs[4].outcome];
  }

  /** An exception on attempts one to four is swallowed; on the fifth it is rethrown as it is. */
  lemma LastExceptionIsRethrown(posts: PostRepository.PostStore, runs: seq<AttemptRun>)
    requires |runs| == MAX_ATTEMPTS
    requires forall k :: 0 <= k < |runs| ==> WellBehaved(posts, runs[k])
    requires (forall k :: 0 <= k < 4 ==> runs[k].outcome.Threw?) && runs[4].outcome.Threw?
    ensures RunLoop(posts, runs).result == Failure(runs[4].outcome.error)
    ensures |RunLoop(posts, runs).outcomes| == MAX_ATTEMPTS
  {
  }
}
