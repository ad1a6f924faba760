/** The skill vocabulary and the skill filter of the resume analyzer.

    The natural-language tokenizer the analyzer runs over the lowercased text is
    not modelled: it is a parameter `tokenize`, a function from the lowercased
    text to its sequence of token texts. Everything here holds for every such
    tokenizer unless a lemma says otherwise.
 */
module Skills {

  /** The fixed vocabulary of recognised skills. */
  const SkillSet: set<string> := {
    "html", "css", "javascript", "react", "git", "responsive design", "sql",
    "python", "docker", "aws", "ci/cd", "node.js", "mongodb", "flask", "rest apis"
  }

  /** The vocabulary has fifteen distinct entries. */
  lemma VocabularySize()
    ensures |SkillSet| == 15
  {
  }

  /** A text with no upper-case ASCII letter. */
  predicate NoUpper(s: string)
  {
    forall i :: 0 <= i < |s| ==> !('A' <= s[i] <= 'Z')
  }

  /** Lowering a text that has no upper-case letter leaves it unchanged. */
  lemma LowerOfNoUpper(s: string)
    requires NoUpper(s)
    ensures Lower(s) == s
  {
  }

  /** Every vocabulary entry is already in lower case, so it is unchanged by
      the lowering applied to the text before tokenizing. */
  lemma VocabularyLowercase()
    ensures forall s :: s in SkillSet ==> Lower(s) == s
  {
    forall s | s in SkillSet
      ensures Lower(s) == s
    {
      assert NoUpper(s);
      LowerOfNoUpper(s);
    }
  }

  /** Lowercasing of one character; only the ASCII letters A-Z are mapped. */
  function LowerChar(c: char): (r: char)
    ensures 'A' <= c <= 'Z' ==> 'a' <= r <= 'z' && r as int - c as int == 32
    ensures !('A' <= c <= 'Z') ==> r == c
  {
    if 'A' <= c <= 'Z' then (c as int + 32) as char else c
  }

  /** The text with every letter lowercased, character for character. */
  function Lower(s: string): (r: string)
    ensures |r| == |s|
    ensures forall i :: 0 <= i < |s| ==> r[i] == LowerChar(s[i])
  {
    if s == [] then [] else [LowerChar(s[0])] + Lower(s[1..])
  }

  /** Lowercasing a lowercased text changes nothing. */
  lemma LowerIdempotent(s: string)
    ensures Lower(Lower(s)) == Lower(s)
  {
  }

  /** The skills named in `text`: the tokens of the lowercased text that are
      vocabulary entries, as a set. */
  function ExtractKnownSkills(tokenize: string -> seq<string>, text: string): (r: set<string>)
    ensures r <= SkillSet
  {
    var doc := tokenize(Lower(text));
    set t | t in doc && t in SkillSet
  }

  /** A vocabulary entry is extracted exactly when some token of the
      lowercased text is literally that entry; nothing else is extracted. */
  lemma ExtractMembership(tokenize: string -> seq<string>, text: string, s: string)
    ensures s in ExtractKnownSkills(tokenize, text) <==>
              s in SkillSet &&
              exists i :: 0 <= i < |tokenize(Lower(text))| && tokenize(Lower(text))[i] == s
  {
    var doc := tokenize(Lower(text));
    var skills := ExtractKnownSkills(tokenize, text);
    assert skills == set t | t in doc && t in SkillSet;
    if s in SkillSet && exists i :: 0 <= i < |doc| && doc[i] == s {
      var i :| 0 <= i < |doc| && doc[i] == s;
      assert s in doc;
      assert s in skills;
    }
    if s in skills {
      assert s in doc && s in SkillSet;
      var i :| 0 <= i < |doc| && doc[i] == s;
      assert 0 <= i < |tokenize(Lower(text))| && tokenize(Lower(text))[i] == s;
    }
  }

  /** Extraction sees the text only through its tokens: two texts whose
      lowercased forms tokenize to the same set of token texts (in whatever
      order, with whatever repetitions) yield the same skills. */
  lemma SameTokensSameSkills(tokenize: string -> seq<string>, text1: string, text2: string)
    requires forall t :: t in tokenize(Lower(text1)) <==> t in tokenize(Lower(text2))
    ensures ExtractKnownSkills(tokenize, text1) == ExtractKnownSkills(tokenize, text2)
  {
  }

  /** Extraction is insensitive to letter case: a text and its lowercased form
      yield the same skills. */
  lemma ExtractIgnoresCase(tokenize: string -> seq<string>, text: string)
    ensures ExtractKnownSkills(tokenize, text) == ExtractKnownSkills(tokenize, Lower(text))
  {
    LowerIdempotent(text);
  }

  /** A whitespace character: space, tab, newline or carriage return. */
  predicate IsWhitespace(c: char)
  {
    c == ' ' || c == '\t' || c == '\n' || c == '\r'
  }

  /** Every token that contains a space is made of whitespace only. A
      tokenizer that splits on whitespace emits no token with a space, or
      emits a run of whitespace as a token of its own (such as " " or "\n"),
      and meets this in both cases. */
  predicate SpacedTokensBlank(tokens: seq<string>)
  {
    forall i, k :: 0 <= i < |tokens| && ' ' in tokens[i] && 0 <= k < |tokens[i]| ==> IsWhitespace(tokens[i][k])
  }

  /** The vocabulary entries that contain a space are exactly the two phrases
      "responsive design" and "rest apis". */
  lemma MultiWordEntries()
    ensures (set s | s in SkillSet && ' ' in s) == {"responsive design", "rest apis"}
  {
  }

  /** A vocabulary entry that contains a space does not start with
      whitespace. */
  lemma SpacedEntryStartsWithLetter(s: string)
    requires s in SkillSet && ' ' in s
    ensures s != [] && !IsWhitespace(s[0])
  {
    MultiWordEntries();
    assert s in (set e | e in SkillSet && ' ' in e);
  }

  /** The multi-word entries "responsive design" and "rest apis" can be
      extracted only from a token that contains a space and also a letter.
      Under a tokenizer whose spaced tokens are whitespace only, neither is
      ever extracted, and every extracted skill is a single word. */
  lemma MultiWordSkillsUnmatchable(tokenize: string -> seq<string>, text: string)
    requires SpacedTokensBlank(tokenize(Lower(text)))
    ensures "responsive design" !in ExtractKnownSkills(tokenize, text)
    ensures "rest apis" !in ExtractKnownSkills(tokenize, text)
    ensures forall s :: s in ExtractKnownSkills(tokenize, text) ==> ' ' !in s
  {
    forall s | s in ExtractKnownSkills(tokenize, text)
      ensures ' ' !in s
    {
      if ' ' in s {
        ExtractMembership(tokenize, text, s);
        var doc := tokenize(Lower(text));
        var i :| 0 <= i < |doc| && doc[i] == s;
        SpacedEntryStartsWithLetter(s);
        assert false;
      }
    }
  }
}
