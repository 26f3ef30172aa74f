/** Resource codes as links store them: `normalizeOptionalResourceCode` and trimmed ids. */
module ResourceCodes {
  import opened Common

  function TrimStart(s: string): (r: string)
    ensures |r| <= |s| && (r != [] ==> !IsSpace(r[0]) && r[|r| - 1] == s[|s| - 1])
  {
    if s != [] && IsSpace(s[0]) then TrimStart(s[1..]) else s
  }

  function TrimEnd(s: string): (r: string)
    ensures |r| <= |s| && (r != [] ==> !IsSpace(r[|r| - 1]) && r[0] == s[0])
  {
    if s != [] && IsSpace(s[|s| - 1]) then TrimEnd(s[..|s| - 1]) else s
  }

  function Trim(s: string): string { TrimEnd(TrimStart(s)) }

  predicate Trimmed(s: string) { s == [] || (!IsSpace(s[0]) && !IsSpace(s[|s| - 1])) }

  lemma {:induction false} TrimIsTrimmed(s: string)
    ensures Trimmed(Trim(s))
    ensures Trimmed(s) ==> Trim(s) == s
  {
  }

  predicate Alnum(c: char) { 'a' <= c <= 'z' || 'A' <= c <= 'Z' || '0' <= c <= '9' }

  /** `replace(/[^a-zA-Z0-9]+/g, '_')`; `inRun` says the character before was replaced too. */
  function Collapse(s: string, inRun: bool): string {
    if s == [] then []
    else if Alnum(s[0]) then [s[0]] + Collapse(s[1..], false)
    else (if inRun then [] else ['_']) + Collapse(s[1..], true)
  }

  function StripStart(s: string): string { if s != [] && s[0] == '_' then StripStart(s[1..]) else s }

  function StripEnd(s: string): string { if s != [] && s[|s| - 1] == '_' then StripEnd(s[..|s| - 1]) else s }

  function UpperOf(c: char): char { if 'a' <= c <= 'z' then (c as int - 32) as char else c }

  function Upper(s: string): (r: string)
    ensures |r| == |s| && forall i :: 0 <= i < |s| ==> r[i] == UpperOf(s[i])
  {
    seq(|s|, i requires 0 <= i < |s| => UpperOf(s[i]))
  }

  function Normalize(s: string): Option<string> {
    var code := Upper(StripEnd(StripStart(Collapse(Trim(s), false))));
    if code == [] then None else Some(code)
  }

  /** Words of letters and digits with single underscores between them. */
  ghost predicate Single(s: string) {
    && (forall i :: 0 <= i < |s| ==> Alnum(s[i]) || s[i] == '_')
    && (forall i, j :: 0 <= i < j < |s| && j == i + 1 ==> s[i] != '_' || s[j] != '_')
  }

  ghost predicate Code(s: string) {
    && s != [] && Single(s) && s[0] != '_' && s[|s| - 1] != '_'
    && forall i :: 0 <= i < |s| ==> UpperOf(s[i]) == s[i]
  }

  lemma {:induction false} CollapseSingle(s: string, inRun: bool)
    ensures Single(Collapse(s, inRun))
    ensures inRun && Collapse(s, inRun) != [] ==> Collapse(s, inRun)[0] != '_'
  {
    if s != [] { CollapseSingle(s[1..], !Alnum(s[0])); }
  }

  lemma {:induction false} StripStartSingle(s: string)
    requires Single(s)
    ensures Single(StripStart(s)) && (StripStart(s) != [] ==> StripStart(s)[0] != '_')
  {
    if s != [] && s[0] == '_' {
      assert Single(s[1..]) by { forall i | 0 <= i < |s[1..]| ensures s[1..][i] == s[i + 1] { } }
      StripStartSingle(s[1..]);
    }
  }

  lemma {:induction false} StripEndSingle(s: string)
    requires Single(s) && (s != [] ==> s[0] != '_')
    ensures var r := StripEnd(s); Single(r) && (r != [] ==> r[0] != '_' && r[|r| - 1] != '_')
  {
    if s != [] && s[|s| - 1] == '_' { StripEndSingle(s[..|s| - 1]); }
  }

  lemma {:induction false} NormalizeGivesCode(s: string)
    ensures Normalize(s).Some? ==> Code(Normalize(s).value)
  {
    CollapseSingle(Trim(s), false);
    StripStartSingle(Collapse(Trim(s), false));
    StripEndSingle(StripStart(Collapse(Trim(s), false)));
  }

  lemma {:induction false} CollapseKeeps(s: string, inRun: bool)
    requires Single(s) && (inRun && s != [] ==> s[0] != '_')
    ensures Collapse(s, inRun) == s
  {
    if s != [] {
      assert Single(s[1..]) by { forall i | 0 <= i < |s[1..]| ensures s[1..][i] == s[i + 1] { } }
      assert !Alnum('_');
      assert !Alnum(s[0]) && s[1..] != [] ==> s[0 + 1] != '_';
      CollapseKeeps(s[1..], !Alnum(s[0]));
    }
  }

  lemma {:induction false} NormalizeKeepsCode(s: string)
    requires Code(s)
    ensures Normalize(s) == Some(s)
  {
    assert forall c :: IsSpace(c) ==> !Alnum(c) && c != '_';
    assert Trim(s) == s by { assert !IsSpace(s[0]) && !IsSpace(s[|s| - 1]); TrimIsTrimmed(s); }
    CollapseKeeps(s, false);
    assert Upper(s) == s;
  }

  /** A stored resource type normalises to itself, so every later lookup finds it. */
  lemma {:induction false} NormalizeIdempotent(s: string)
    requires Normalize(s).Some?
    ensures Normalize(Normalize(s).value) == Normalize(s)
  {
    NormalizeGivesCode(s);
    NormalizeKeepsCode(Normalize(s).value);
  }

  // ---------------------------------------------------------------- what a code says

  function Flush(word: string): seq<string> { if word == "" then [] else [word] }

  /** The runs of ASCII letters and digits in upper case, the first of which continues `word`. */
  function Words(s: string, word: string): seq<string> {
    if s == [] then Flush(word)
    else if 'a' <= s[0] <= 'z' then Words(s[1..], word + [(s[0] as int - 'a' as int + 'A' as int) as char])
    else if 'A' <= s[0] <= 'Z' || '0' <= s[0] <= '9' then Words(s[1..], word + [s[0]])
    else Flush(word) + Words(s[1..], "")
  }

  function Underscored(words: seq<string>): string {
    if words == [] then "" else if |words| == 1 then words[0] else words[0] + "_" + Underscored(words[1..])
  }

  lemma {:induction false} WordsStep(s: string, word: string)
    requires s != []
    ensures Words(s, word)
      == if Alnum(s[0]) then Words(s[1..], word + [UpperOf(s[0])]) else Flush(word) + Words(s[1..], "")
  {
  }

  lemma {:induction false} WordsDropEnd(s: string, word: string)
    requires s != [] && !Alnum(s[|s| - 1])
    ensures Words(s, word) == Words(s[..|s| - 1], word)
  {
    var front := s[..|s| - 1];
    WordsStep(s, word);
    if |s| == 1 {
      assert Words(s[1..], "") == [];
    } else {
      WordsStep(front, word);
      assert front[1..] == s[1..][..|s[1..]| - 1];
      WordsDropEnd(s[1..], if Alnum(s[0]) then word + [UpperOf(s[0])] else "");
    }
  }

  lemma {:induction false} WordsOfTrimEnd(s: string)
    ensures Words(TrimEnd(s), "") == Words(s, "")
  {
    if s != [] && IsSpace(s[|s| - 1]) { WordsDropEnd(s, ""); WordsOfTrimEnd(s[..|s| - 1]); }
  }

  lemma {:induction false} WordsOfTrimStart(s: string)
    ensures Words(TrimStart(s), "") == Words(s, "")
  {
    if s != [] && IsSpace(s[0]) { WordsOfTrimStart(s[1..]); }
  }

  lemma {:induction false} WordsOfStripEnd(s: string)
    ensures Words(StripEnd(s), "") == Words(s, "")
  {
    if s != [] && s[|s| - 1] == '_' { WordsDropEnd(s, ""); WordsOfStripEnd(s[..|s| - 1]); }
  }

  lemma {:induction false} WordsOfStripStart(s: string)
    ensures Words(StripStart(s), "") == Words(s, "")
  {
    if s != [] && s[0] == '_' { WordsOfStripStart(s[1..]); }
  }

  lemma {:induction false} WordsOfCollapse(s: string, inRun: bool, word: string)
    requires inRun ==> word == ""
    ensures Words(Collapse(s, inRun), word) == Words(s, word)
  {
    if s != [] {
      var rest := Collapse(s[1..], !Alnum(s[0]));
      WordsStep(s, word);
      if Alnum(s[0]) {
        WordsOfCollapse(s[1..], false, word + [UpperOf(s[0])]);
        assert Collapse(s, inRun)[0] == s[0] && Collapse(s, inRun)[1..] == rest;
        WordsStep(Collapse(s, inRun), word);
      } else {
        WordsOfCollapse(s[1..], true, "");
        if inRun {
          assert [] + rest == rest;
        } else {
          assert Collapse(s, inRun)[0] == '_' && Collapse(s, inRun)[1..] == rest;
        }
      }
    }
  }

  lemma {:induction false} UnderscoredCons(word: string, words: seq<string>)
    requires words != []
    ensures Underscored([word] + words) == word + "_" + Underscored(words)
  {
    assert ([word] + words)[1..] == words;
  }

  lemma {:induction false} UpperFirst(s: string)
    requires s != []
    ensures Upper(s) == [UpperOf(s[0])] + Upper(s[1..])
  {
  }

  /** What is left of a code after a word or part of one: `word` may only be empty before a word. */
  ghost predicate Continues(s: string, word: string) {
    Single(s) && (s != [] ==> s[|s| - 1] != '_') && (word == "" && s != [] ==> s[0] != '_')
  }

  lemma {:induction false} ContinuesTail(s: string, word: string)
    requires Continues(s, word) && s != []
    ensures Alnum(s[0]) ==> Continues(s[1..], word + [UpperOf(s[0])])
    ensures !Alnum(s[0]) ==> s[0] == '_' && word != "" && s[1..] != [] && Continues(s[1..], "")
  {
    assert Single(s[1..]) by { forall i | 0 <= i < |s[1..]| ensures s[1..][i] == s[i + 1] { } }
    assert s[1..] != [] ==> s[1..][|s[1..]| - 1] == s[|s| - 1];
    assert s[1..] != [] ==> s[1..][0] == s[0 + 1];
  }

  /** Words with single underscores between them are the code. */
  lemma {:induction false} CodeIsWords(s: string, word: string)
    requires Continues(s, word)
    ensures Underscored(Words(s, word)) == word + Upper(s)
    ensures s != [] || word != "" ==> Words(s, word) != []
  {
    if s == [] {
      assert Upper(s) == [];
    } else {
      UpperFirst(s);
      WordsStep(s, word);
      ContinuesTail(s, word);
      if Alnum(s[0]) {
        CodeIsWords(s[1..], word + [UpperOf(s[0])]);
        AppendOne(word, UpperOf(s[0]), Upper(s[1..]));
      } else {
        CodeIsWords(s[1..], "");
        UnderscoredCons(word, Words(s[1..], ""));
        assert "" + Upper(s[1..]) == Upper(s[1..]);
        AppendOne(word, '_', Upper(s[1..]));
      }
    }
  }

  lemma {:induction false} AppendOne(a: string, c: char, b: string)
    ensures a + [c] + b == a + ([c] + b)
  {
  }

  /** Trimming, collapsing and stripping leave the words alone. */
  lemma {:induction false} SameWords(s: string)
    ensures Words(StripEnd(StripStart(Collapse(Trim(s), false))), "") == Words(s, "")
  {
    var collapsed := Collapse(Trim(s), false);
    WordsOfTrimStart(s);
    WordsOfTrimEnd(TrimStart(s));
    WordsOfCollapse(Trim(s), false, "");
    WordsOfStripStart(collapsed);
    WordsOfStripEnd(StripStart(collapsed));
  }

  lemma {:induction false} StrippedContinues(s: string)
    ensures Continues(StripEnd(StripStart(Collapse(s, false))), "")
  {
    CollapseSingle(s, false);
    StripStartSingle(Collapse(s, false));
    StripEndSingle(StripStart(Collapse(s, false)));
  }

  /** A normalised type is the words of what was given, in upper case and joined by underscores; there is none
      exactly when what was given has no ASCII letter or digit. */
  lemma {:induction false} NormalizeIsWords(s: string)
    ensures Normalize(s) == if Words(s, "") == [] then None else Some(Underscored(Words(s, "")))
  {
    var code := StripEnd(StripStart(Collapse(Trim(s), false)));
    SameWords(s);
    StrippedContinues(Trim(s));
    CodeIsWords(code, "");
    assert "" + Upper(code) == Upper(code);
    assert code == [] ==> Words(code, "") == [];
  }

  /** `${type}::${id}`: a code has no colon, so the key determines both parts whatever the id holds. */
  function ResourceKey(resourceType: string, resourceId: string): string { resourceType + "::" + resourceId }

  lemma {:induction false} ResourceKeyInjective(t: string, i: string, t': string, i': string)
    requires Code(t) && Code(t') && ResourceKey(t, i) == ResourceKey(t', i')
    ensures t == t' && i == i'
  {
    var k, k' := ResourceKey(t, i), ResourceKey(t', i');
    assert k[|t|] == ':' && k'[|t'|] == ':';
    assert !Alnum(':');
    assert (forall j :: 0 <= j < |t| ==> k[j] == t[j] != ':') && (forall j :: 0 <= j < |t'| ==> k'[j] == t'[j] != ':');
    assert |t| == |t'|;
    assert k[..|t|] == t && k'[..|t'|] == t';
    assert k[|t| + 2..] == i && k'[|t'| + 2..] == i';
  }
}
