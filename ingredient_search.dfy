/** The ingredient-search normaliser of `getGeneratedRecipe` and the comma-joined query
    parameter of `getRecipes` (src/controllers/spoonacular.ts). The outbound HTTP call is
    not part of this model: only the word list it is given. */
module IngredientSearch {
  import opened Seqs
  import opened JsText
  import opened Wrappers

  /** The characters `replace(/[^a-zA-Z, ]/g, "")` keeps: ASCII letters, comma, space. */
  predicate IsKept(c: char) { IsAsciiLetter(c) || c == ',' || c == ' ' }

  /** The characters of the class `[\s,]` that `split(/[\s,]+/)` cuts on. */
  predicate IsSeparator(c: char) { IsJsWhitespace(c) || c == ',' }

  predicate IsWordChar(c: char) { !IsSeparator(c) }

  predicate IsNonEmpty(w: string) { |w| > 0 }

  /** The separators left after cleaning: space and comma. */
  predicate IsCleanSeparator(c: char) { c == ' ' || c == ',' }

  /** The characters left after cleaning: lower-case ASCII letters, comma and space. */
  predicate InCleanAlphabet(c: char) { IsAsciiLower(c) || c == ',' || c == ' ' }

  predicate AllLower(w: string) { forall k :: 0 <= k < |w| ==> IsAsciiLower(w[k]) }

  /** A word as the normaliser can return it: non-empty, lower-case ASCII letters only. */
  predicate IsSearchWord(w: string) { |w| > 0 && AllLower(w) }

  /** `search.replace(/[^a-zA-Z, ]/g, "").toLowerCase()`: the text that is split. */
  function CleanedText(search: string): string {
    LowerAscii(Filter(IsKept, search))
  }

  /** `text.split(/[\s,]+/)`: the pieces between maximal runs of separators, including the
      empty piece before a leading run and after a trailing one ("" gives [""]). */
  function SplitOnSeparatorRuns(text: string): (pieces: seq<string>)
    ensures |pieces| >= 1
  {
    SplitRuns(IsWordChar, text)
  }

  /** The word list `getGeneratedRecipe` sends on: the pieces of the cleaned text with
      `filter((word) => word.length > 0)` applied. */
  function Normalise(search: string): seq<string> {
    Filter(IsNonEmpty, SplitOnSeparatorRuns(CleanedText(search)))
  }

  /** `ingredients.join(",")`: the query parameter passed to the recipe-suggestion API. */
  function IngredientsParameter(words: seq<string>): string {
    Seqs.Join(words, ",")
  }

  /** How `getGeneratedRecipe` ends: 200 with the suggestions fetched for the comma-joined
      words (the fetch itself is not modelled, only the `ingredients` parameter it is
      sent), or 500 when there is no search text to normalise. */
  datatype SearchReply = Suggestions(status: int, ingredients: string) | ServerError(status: int, error: string)

  function GeneratedRecipeReply(search: Option<string>): (r: SearchReply)
    ensures search.None? <==> r == ServerError(500, "Internal server error")
    ensures search.Some? ==> r.Suggestions? && r.status == 200 && Normalise(r.ingredients) == Normalise(search.value)
    ensures search.Some? ==> r.ingredients == IngredientsParameter(Normalise(search.value))
    ensures search.Some? ==> forall k :: 0 <= k < |r.ingredients| ==> IsAsciiLower(r.ingredients[k]) || r.ingredients[k] == ','
  {
    match search
    case None => ServerError(500, "Internal server error")
    case Some(text) =>
      NormaliseRoundTrip(text);
      WordsAreSearchWords(text);
      JoinedWordsAlphabet(Normalise(text));
      Suggestions(200, IngredientsParameter(Normalise(text)))
  }

  /** Every character of the cleaned text is a lower-case ASCII letter, a comma or a space:
      digits, tabs, newlines, punctuation and non-ASCII letters are all deleted. */
  lemma CleanedTextAlphabet(search: string)
    ensures forall i :: 0 <= i < |CleanedText(search)| ==> InCleanAlphabet(CleanedText(search)[i])
  {
    var kept := Filter(IsKept, search);
    forall i | 0 <= i < |kept| ensures InCleanAlphabet(LowerChar(kept[i])) {
      assert IsKept(kept[i]);
    }
  }

  /** In a cleaned text, every piece of the split is made of lower-case letters. */
  lemma PiecesOfCleanText(text: string)
    requires forall i :: 0 <= i < |text| ==> InCleanAlphabet(text[i])
    ensures forall i :: 0 <= i < |SplitOnSeparatorRuns(text)| ==> AllLower(SplitOnSeparatorRuns(text)[i])
  {
    SplitRunsElements(IsWordChar, InCleanAlphabet, text);
  }

  /** Every returned word is non-empty and made only of the letters a to z. */
  lemma WordsAreSearchWords(search: string)
    ensures forall i :: 0 <= i < |Normalise(search)| ==> IsSearchWord(Normalise(search)[i])
  {
    var pieces := SplitOnSeparatorRuns(CleanedText(search));
    CleanedTextAlphabet(search);
    PiecesOfCleanText(CleanedText(search));
    FilterPreserves(IsNonEmpty, AllLower, pieces);
  }

  /** The words keep the input's order: concatenated, they are the cleaned, lower-cased
      text with all separators removed. */
  lemma WordsSpellCleanedText(search: string)
    ensures Concat(Normalise(search)) == Filter(IsWordChar, CleanedText(search))
  {
    ConcatDropsEmpty(IsNonEmpty, SplitOnSeparatorRuns(CleanedText(search)));
    ConcatSplitRuns(IsWordChar, CleanedText(search));
  }

  /** A deleted character does not separate words: removing it from the input changes
      nothing, wherever it stands ("to-ma2to" reads as "tomato"). */
  lemma DeletedCharsDoNotSeparate(before: string, c: char, after: string)
    requires !IsKept(c)
    ensures Normalise(before + [c] + after) == Normalise(before + after)
  {
    DeletedCharVanishes(before, c, after);
    SameCleanedTextSameWords(before + [c] + after, before + after);
  }

  lemma DeletedCharVanishes(before: string, c: char, after: string)
    requires !IsKept(c)
    ensures CleanedText(before + [c] + after) == CleanedText(before + after)
  {
    FilterAppend(IsKept, before + [c], after);
    FilterAppend(IsKept, before, [c]);
    FilterAppend(IsKept, before, after);
    assert Filter(IsKept, [c]) == [];
  }

  lemma SameCleanedTextSameWords(x: string, y: string)
    requires CleanedText(x) == CleanedText(y)
    ensures Normalise(x) == Normalise(y)
  {
  }

  /** A list of non-empty words has a non-empty concatenation. */
  lemma ConcatOfWordsEmpty(words: seq<string>)
    requires forall i :: 0 <= i < |words| ==> IsNonEmpty(words[i])
    ensures Concat(words) == [] <==> words == []
  {
    if words != [] {
      assert |Concat(words)| >= |words[0]|;
    }
  }

  predicate IsNotLetter(c: char) { !IsAsciiLetter(c) }

  /** Without ASCII letters in the input, the cleaned text has no word character. */
  lemma NoLettersNoWordChars(search: string)
    requires forall i :: 0 <= i < |search| ==> IsNotLetter(search[i])
    ensures Filter(IsWordChar, CleanedText(search)) == []
  {
    var kept := Filter(IsKept, search);
    var text := CleanedText(search);
    FilterPreserves(IsKept, IsNotLetter, search);
    forall i | 0 <= i < |text| ensures !IsWordChar(text[i]) {
      assert IsKept(kept[i]) && IsNotLetter(kept[i]);
    }
    FilterNone(IsWordChar, text);
  }

  /** An ASCII letter in the input leaves a word character in the cleaned text. */
  lemma LetterGivesWordChar(search: string, i: nat)
    requires i < |search| && IsAsciiLetter(search[i])
    ensures Filter(IsWordChar, CleanedText(search)) != []
  {
    var kept := Filter(IsKept, search);
    var text := CleanedText(search);
    FilterMembership(IsKept, search, search[i]);
    var j :| 0 <= j < |kept| && kept[j] == search[i];
    assert IsWordChar(text[j]);
    FilterMembership(IsWordChar, text, text[j]);
  }

  /** The normaliser returns no words exactly when the input holds no ASCII letter. */
  lemma NoWordsIffNoLetters(search: string)
    ensures Normalise(search) == [] <==> forall i :: 0 <= i < |search| ==> !IsAsciiLetter(search[i])
  {
    var words := Normalise(search);
    WordsSpellCleanedText(search);
    ConcatOfWordsEmpty(words);
    if forall i :: 0 <= i < |search| ==> !IsAsciiLetter(search[i]) {
      NoLettersNoWordChars(search);
    } else {
      var i :| 0 <= i < |search| && IsAsciiLetter(search[i]);
      LetterGivesWordChar(search, i);
    }
  }

  /** Every character of a comma-joined list of search words is a lower-case letter or a comma. */
  lemma {:induction false} JoinedWordsAlphabet(words: seq<string>)
    requires forall i :: 0 <= i < |words| ==> IsSearchWord(words[i])
    ensures forall k :: 0 <= k < |IngredientsParameter(words)| ==>
      IsAsciiLower(IngredientsParameter(words)[k]) || IngredientsParameter(words)[k] == ','
  {
    if |words| > 1 {
      JoinedWordsAlphabet(words[1..]);
      assert IngredientsParameter(words) == words[0] + "," + IngredientsParameter(words[1..]);
    }
  }

  /** Splitting a comma-joined, non-empty list of search words gives the list back. */
  lemma SplitJoined(words: seq<string>)
    requires words != []
    requires forall i :: 0 <= i < |words| ==> IsSearchWord(words[i])
    ensures SplitOnSeparatorRuns(IngredientsParameter(words)) == words
  {
    forall i, k | 0 <= i < |words| && 0 <= k < |words[i]| ensures IsWordChar(words[i][k]) {
      assert IsSearchWord(words[i]);
    }
    SplitRunsJoin(IsWordChar, words, ',');
  }

  /** Normalising a comma-joined list of search words gives the list back. */
  lemma NormaliseJoined(words: seq<string>)
    requires forall i :: 0 <= i < |words| ==> IsSearchWord(words[i])
    ensures Normalise(IngredientsParameter(words)) == words
  {
    var text := IngredientsParameter(words);
    assert CleanedText(text) == text by {
      JoinedWordsAlphabet(words);
      FilterAll(IsKept, text);
      LowerAsciiNoUpper(text);
    }
    if words == [] {
      assert SplitOnSeparatorRuns(text) == [""];
    } else {
      SplitJoined(words);
      FilterAll(IsNonEmpty, words);
    }
  }

  /** Round trip: joining the words with "," and normalising again gives the same list, so
      the query parameter carries exactly the words the user's search produced. */
  lemma NormaliseRoundTrip(search: string)
    ensures Normalise(IngredientsParameter(Normalise(search))) == Normalise(search)
  {
    WordsAreSearchWords(search);
    NormaliseJoined(Normalise(search));
  }

  /** Example: a hyphen and a digit inside a word vanish. */
  lemma HyphenAndDigitExample()
    ensures Normalise("to-ma2to") == ["tomato"]
  {
    calc {
      Normalise("to-ma2to");
    == { assert "to-ma2to" == "to" + ['-'] + "ma2to";
         DeletedCharsDoNotSeparate("to", '-', "ma2to"); }
      Normalise("to" + "ma2to");
    == { assert "to" + "ma2to" == "toma" + ['2'] + "to";
         DeletedCharsDoNotSeparate("toma", '2', "to"); }
      Normalise("toma" + "to");
    == { assert "toma" + "to" == IngredientsParameter(["tomato"]); }
      Normalise(IngredientsParameter(["tomato"]));
    == { NormaliseJoined(["tomato"]); }
      ["tomato"];
    }
  }

  /** Two lower-case words glued together make a lower-case word. */
  lemma AllLowerConcat(a: string, b: string)
    requires AllLower(a) && AllLower(b)
    ensures AllLower(a + b)
  {
  }

  /** Example: a tab is deleted, not split on, so it glues its neighbours together. */
  lemma TabExample()
    ensures Normalise("salt\tpepper") == ["saltpepper"]
  {
    calc {
      Normalise("salt\tpepper");
    == { assert "salt\tpepper" == "salt" + ['\t'] + "pepper";
         DeletedCharsDoNotSeparate("salt", '\t', "pepper"); }
      Normalise("salt" + "pepper");
    == { assert "salt" + "pepper" == "saltpepper"; }
      Normalise("saltpepper");
    == { GluedWordExample(); }
      ["saltpepper"];
    }
  }

  /** Example: the word the tab leaves behind is one search word. */
  lemma GluedWordExample()
    ensures Normalise("saltpepper") == ["saltpepper"]
  {
    assert AllLower("salt") && AllLower("pepper");
    AllLowerConcat("salt", "pepper");
    assert IngredientsParameter(["saltpepper"]) == "saltpepper";
    NormaliseJoined(["saltpepper"]);
  }

  /** Search words with runs of spaces and commas before, between and after them
      normalise to exactly those words: a run of spaces or commas of any length ends a
      word, and runs at either end give no word. */
  lemma SeparatedWords(words: seq<string>, seps: seq<string>)
    requires |seps| == |words| + 1
    requires forall i :: 0 <= i < |words| ==> IsSearchWord(words[i])
    requires forall i, k :: 0 <= i < |seps| && 0 <= k < |seps[i]| ==> IsCleanSeparator(seps[i][k])
    requires forall i :: 0 < i < |words| ==> seps[i] != []
    ensures Normalise(Interleave(words, seps)) == words
  {
    var text := Interleave(words, seps);
    forall i, k | 0 <= i < |words| && 0 <= k < |words[i]|
      ensures InCleanAlphabet(words[i][k]) && IsWordChar(words[i][k])
    {
      assert IsSearchWord(words[i]);
    }
    InterleaveElements(InCleanAlphabet, words, seps);
    assert CleanedText(text) == text by {
      FilterAll(IsKept, text);
      LowerAsciiNoUpper(text);
    }
    SplitRunsInterleave(IsWordChar, IsNonEmpty, words, seps);
  }

  /** Example: a space separates words, unlike the tab of `TabExample`. */
  lemma SpaceExample()
    ensures Normalise(" salt, pepper ") == ["salt", "pepper"]
  {
    var words := ["salt", "pepper"];
    var seps := [" ", ", ", " "];
    assert Interleave(words[1..][1..], seps[1..][1..]) == " ";
    assert Interleave(words[1..], seps[1..]) == ", " + "pepper" + " ";
    assert Interleave(words, seps) == " " + "salt" + (", " + "pepper" + " ");
    assert " " + "salt" + (", " + "pepper" + " ") == " salt, pepper ";
    SeparatedWords(words, seps);
  }
}
