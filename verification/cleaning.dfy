/**
 * The text normalizer `clean_text`: three regular-expression substitutions
 * (links, `@`/`#` tags, punctuation), lower-casing and stripping, then
 * tokenizing, token filtering, lemmatizing and joining with single spaces.
 * The NLTK tokenizer, stop-word list and lemmatizer are opaque oracles; an
 * oracle that answers `None` stands for one that raised.
 */
module Cleaning {
  import opened Wrappers
  import opened Chars
  import Seqs

  /** The NLTK collaborators. `stopWords` is `None` when loading the list raised. */
  datatype Nlp = Nlp(
    tokenize: string -> Option<seq<string>>,
    stopWords: Option<set<string>>,
    lemmatize: string -> Option<string>)

  predicate NoWordChars(s: string) {
    forall i :: 0 <= i < |s| ==> !IsWordChar(s[i])
  }

  predicate NoSpace(s: string) {
    forall i :: 0 <= i < |s| ==> !IsSpace(s[i])
  }

  // ---------------------------------------------------------------------
  // Step 1: re.sub(r'http\S+|www\S+|https\S+', '', text)

  /** One of the link alternatives matches at the start of `s`
    * (`https\S+` is subsumed by `http\S+`). */
  predicate LinkStarts(s: string) {
    || (|s| > 4 && s[0] == 'h' && s[1] == 't' && s[2] == 't' && s[3] == 'p' && !IsSpace(s[4]))
    || (|s| > 3 && s[0] == 'w' && s[1] == 'w' && s[2] == 'w' && !IsSpace(s[3]))
  }

  /** `\S+` taken greedily: drops the leading run of non-whitespace. */
  function DropNonSpace(s: string): (r: string)
    ensures |r| <= |s| && r == s[|s| - |r|..]
    ensures NoSpace(s[..|s| - |r|])
    ensures r == [] || IsSpace(r[0])
  {
    if s != [] && !IsSpace(s[0]) then
      var r := DropNonSpace(s[1..]);
      NoSpaceCons(s, r);
      r
    else s
  }

  /** The run of non-whitespace after a first non-whitespace character
    * extends to the front of the string. */
  lemma {:induction false} NoSpaceCons(s: string, r: string)
    requires s != [] && !IsSpace(s[0])
    requires |r| <= |s| - 1 && r == s[1..][|s| - 1 - |r|..] && NoSpace(s[1..][..|s| - 1 - |r|])
    ensures |r| <= |s| && r == s[|s| - |r|..]
    ensures NoSpace(s[..|s| - |r|])
  {
    var k := |s| - |r|;
    assert s[1..][k - 1..] == s[k..];
    forall i | 0 <= i < k ensures !IsSpace(s[..k][i]) {
      if i > 0 {
        assert s[..k][i] == s[1..][..k - 1][i - 1];
      }
    }
  }

  /** Scans left to right; a link match and its `\S+` tail are deleted. */
  function RemoveLinks(s: string): (r: string)
    ensures |r| <= |s|
    ensures forall c :: c in r ==> c in s
    decreases |s|
  {
    if s == [] then []
    else if LinkStarts(s) then
      var rest := DropNonSpace(s);
      assert |rest| < |s| by { assert !IsSpace(s[0]); }
      RemoveLinks(rest)
    else [s[0]] + RemoveLinks(s[1..])
  }

  // ---------------------------------------------------------------------
  // Step 2: re.sub(r'@\w+|#\w+', '', text)

  predicate TagStarts(s: string) {
    |s| > 1 && (s[0] == '@' || s[0] == '#') && IsWordChar(s[1])
  }

  /** `\w+` taken greedily: drops the leading run of word characters. */
  function DropWord(s: string): (r: string)
    ensures |r| <= |s| && r == s[|s| - |r|..]
    ensures r == [] || !IsWordChar(r[0])
  {
    if s != [] && IsWordChar(s[0]) then DropWord(s[1..]) else s
  }

  function RemoveTags(s: string): (r: string)
    ensures |r| <= |s|
    ensures forall c :: c in r ==> c in s
    decreases |s|
  {
    if s == [] then []
    else if TagStarts(s) then RemoveTags(DropWord(s[1..]))
    else [s[0]] + RemoveTags(s[1..])
  }

  // ---------------------------------------------------------------------
  // Step 3: re.sub(r'[^\w\s]', '', text)

  function RemovePunctuation(s: string): (r: string)
    ensures |r| <= |s|
    ensures forall i :: 0 <= i < |r| ==> IsWordChar(r[i]) || IsSpace(r[i])
    ensures forall c :: c in r ==> c in s
    ensures forall c :: c in s && (IsWordChar(c) || IsSpace(c)) ==> c in r
  {
    if s == [] then []
    else if IsWordChar(s[0]) || IsSpace(s[0]) then [s[0]] + RemovePunctuation(s[1..])
    else RemovePunctuation(s[1..])
  }

  /** One character survives exactly when it is a word character or whitespace. */
  lemma RemovePunctuationOne(c: char)
    ensures RemovePunctuation([c]) == if IsWordChar(c) || IsSpace(c) then [c] else []
  {
    assert [c][1..] == [];
  }

  /** The substitution works character by character: removing the
    * punctuation of a concatenation concatenates the two results. */
  lemma {:induction false} RemovePunctuationAppend(a: string, b: string)
    ensures RemovePunctuation(a + b) == RemovePunctuation(a) + RemovePunctuation(b)
  {
    if a == [] {
      assert a + b == b;
    } else {
      var kept := if IsWordChar(a[0]) || IsSpace(a[0]) then [a[0]] else [];
      RemovePunctuationStep(a, b, kept);
      RemovePunctuationAppend(a[1..], b);
      Seqs.AppendAssoc(kept, RemovePunctuation(a[1..]), RemovePunctuation(b));
    }
  }

  /** The first character of `a + b` is that of `a`, and it is dropped or kept alike in both. */
  lemma {:induction false} RemovePunctuationStep(a: string, b: string, kept: string)
    requires a != [] && kept == if IsWordChar(a[0]) || IsSpace(a[0]) then [a[0]] else []
    ensures RemovePunctuation(a) == kept + RemovePunctuation(a[1..])
    ensures RemovePunctuation(a + b) == kept + RemovePunctuation(a[1..] + b)
  {
    assert (a + b)[0] == a[0];
    assert (a + b)[1..] == a[1..] + b;
  }

  /** Only lower-case word characters and whitespace. */
  predicate LowerWordOrSpace(s: string) {
    forall i :: 0 <= i < |s| ==> (IsWordChar(s[i]) || IsSpace(s[i])) && !IsUpperChar(s[i])
  }

  lemma {:induction false} LowerOfWordOrSpace(p: string)
    requires forall i :: 0 <= i < |p| ==> IsWordChar(p[i]) || IsSpace(p[i])
    ensures LowerWordOrSpace(Lower(p))
  {
    var l := Lower(p);
    forall i | 0 <= i < |l|
      ensures (IsWordChar(l[i]) || IsSpace(l[i])) && !IsUpperChar(l[i])
    {
      assert l[i] == LowerChar(p[i]);
    }
  }

  lemma {:induction false} InfixLowerWordOrSpace(r: string, l: string, k: int)
    requires InfixAt(r, l, k) && LowerWordOrSpace(l)
    ensures LowerWordOrSpace(r)
  {
    forall i | 0 <= i < |r|
      ensures (IsWordChar(r[i]) || IsSpace(r[i])) && !IsUpperChar(r[i])
    {
      assert r[i] == l[k + i];
    }
  }

  /** The text after the three substitutions, `lower()` and `strip()`:
    * the "lightly cleaned" text that is tokenized, and returned when
    * tokenizing fails. */
  function LightClean(s: string): (r: string)
    ensures LowerWordOrSpace(r)
    ensures r == [] || (!IsSpace(r[0]) && !IsSpace(r[|r| - 1]))
  {
    var p := RemovePunctuation(RemoveTags(RemoveLinks(s)));
    var l := Lower(p);
    LowerOfWordOrSpace(p);
    StripLowerWordOrSpace(l);
    Strip(l)
  }

  lemma {:induction false} StripLowerWordOrSpace(l: string)
    requires LowerWordOrSpace(l)
    ensures LowerWordOrSpace(Strip(l))
  {
    var k :| InfixAt(Strip(l), l, k);
    InfixLowerWordOrSpace(Strip(l), l, k);
  }

  // ---------------------------------------------------------------------
  // Tokens

  /** `w.isalnum() and w not in stop_words and len(w) > 2` */
  predicate KeepToken(w: string, stop: set<string>) {
    IsAlnum(w) && w !in stop && |w| > 2
  }

  function FilterTokens(ws: seq<string>, stop: set<string>): (r: seq<string>)
    ensures |r| <= |ws|
    ensures forall i :: 0 <= i < |r| ==> KeepToken(r[i], stop)
    ensures forall w :: w in r <==> w in ws && KeepToken(w, stop)
  {
    if ws == [] then []
    else (if KeepToken(ws[0], stop) then [ws[0]] else []) + FilterTokens(ws[1..], stop)
  }

  /** Filtering keeps relative order: it distributes over concatenation. */
  lemma {:induction false} FilterTokensAppend(a: seq<string>, b: seq<string>, stop: set<string>)
    ensures FilterTokens(a + b, stop) == FilterTokens(a, stop) + FilterTokens(b, stop)
  {
    if a != [] {
      assert (a + b)[1..] == a[1..] + b;
      FilterTokensAppend(a[1..], b, stop);
    } else {
      assert a + b == b;
    }
  }

  /** `[lemmatizer.lemmatize(w) for w in words]`; `None` if any call raised. */
  function LemmatizeAll(ws: seq<string>, lemmatize: string -> Option<string>): (r: Option<seq<string>>)
    ensures r.Some? ==> |r.value| == |ws| && forall i :: 0 <= i < |ws| ==> lemmatize(ws[i]) == Some(r.value[i])
    ensures r.None? <==> exists i :: 0 <= i < |ws| && lemmatize(ws[i]).None?
  {
    if ws == [] then Some([])
    else match lemmatize(ws[0])
      case None => None
      case Some(l) =>
        match LemmatizeAll(ws[1..], lemmatize)
        case None => None
        case Some(ls) => Some([l] + ls)
  }

  /** `" ".join(words)` */
  function JoinSpaces(ws: seq<string>): string {
    if ws == [] then ""
    else if |ws| == 1 then ws[0]
    else ws[0] + " " + JoinSpaces(ws[1..])
  }

  /** Index of the first `' '` in `s`. */
  function FirstSpace(s: string): (k: nat)
    requires ' ' in s
    ensures k < |s| && s[k] == ' ' && ' ' !in s[..k]
  {
    if s[0] == ' ' then 0
    else
      var k := FirstSpace(s[1..]);
      assert s[..k + 1] == [s[0]] + s[1..][..k];
      k + 1
  }

  /** `s.split(" ")` */
  function SplitSpaces(s: string): (r: seq<string>)
    ensures |r| > 0
    decreases |s|
  {
    if ' ' !in s then [s]
    else
      var k := FirstSpace(s);
      [s[..k]] + SplitSpaces(s[k + 1..])
  }

  /** Joining with single spaces is undone by splitting on spaces, so the
    * separator is exactly one space between consecutive words. */
  lemma {:induction false} SplitJoin(ws: seq<string>)
    requires ws != []
    requires forall i :: 0 <= i < |ws| ==> ' ' !in ws[i]
    ensures SplitSpaces(JoinSpaces(ws)) == ws
  {
    if |ws| == 1 {
    } else {
      var s := JoinSpaces(ws);
      var rest := JoinSpaces(ws[1..]);
      assert s == ws[0] + " " + rest;
      assert s[|ws[0]|] == ' ';
      assert ' ' in s;
      var k := FirstSpace(s);
      assert s[..|ws[0]|] == ws[0];
      assert k == |ws[0]|;
      assert s[k + 1..] == rest;
      SplitJoin(ws[1..]);
    }
  }

  // ---------------------------------------------------------------------
  // clean_text

  /** The body of the `try`: tokenize, filter, lemmatize, join; `None` when
    * any NLTK call raised. */
  function TokenStage(light: string, nlp: Nlp): (r: Option<string>)
    ensures nlp.tokenize(light).None? || nlp.stopWords.None? ==> r.None?
  {
    match nlp.tokenize(light)
    case None => None
    case Some(tokens) =>
      match nlp.stopWords
      case None => None
      case Some(stop) =>
        match LemmatizeAll(FilterTokens(tokens, stop), nlp.lemmatize)
        case None => None
        case Some(lemmas) => Some(JoinSpaces(lemmas))
  }

  /** `clean_text(text)`; `None` stands for a value that is not a string. */
  function CleanText(text: Option<string>, nlp: Nlp): (r: string)
    ensures text.None? || text == Some("") ==> r == ""
    ensures text.Some? && LightClean(text.value) == "" ==> r == ""
    ensures text.Some? && text.value != "" && LightClean(text.value) != "" ==>
              r == match TokenStage(LightClean(text.value), nlp)
                   case None => LightClean(text.value)
                   case Some(joined) => joined
  {
    match text
    case None => ""
    case Some(s) =>
      if s == "" then ""
      else
        var light := LightClean(s);
        if light == "" then ""
        else match TokenStage(light, nlp)
          case None => light
          case Some(joined) => joined
  }
}

/**
 * Text made only of links and tags, each followed by whitespace (the last one
 * optionally not), cleans to the empty string.
 */
module CleaningNoise {
  import opened Wrappers
  import opened Chars
  import opened Cleaning

  /** One link (`http…`/`www…` with a non-empty non-whitespace tail) or one
    * tag (`@word`/`#word`), and the whitespace after it. */
  datatype Noise =
    | Link(www: bool, tail: string, sep: string)
    | Tag(hash: bool, word: string, sep: string)

  function NoiseText(n: Noise): string {
    match n
    case Link(www, tail, _) => (if www then "www" else "http") + tail
    case Tag(hash, word, _) => [if hash then '#' else '@'] + word
  }

  predicate WellFormed(n: Noise) {
    AllSpace(n.sep) &&
    match n
    case Link(_, tail, _) => |tail| > 0 && NoSpace(tail)
    case Tag(_, word, _) => |word| > 0 && forall i :: 0 <= i < |word| ==> IsWordChar(word[i])
  }

  /** Every piece but the last is followed by at least one whitespace character. */
  predicate Separated(ns: seq<Noise>) {
    forall i :: 0 <= i < |ns| - 1 ==> ns[i].sep != []
  }

  /** The pieces in order, each followed by its whitespace. */
  function Render(ns: seq<Noise>): string {
    if ns == [] then "" else NoiseText(ns[0]) + ns[0].sep + Render(ns[1..])
  }

  lemma {:induction false} DropNonSpaceSkips(p: string, t: string)
    requires NoSpace(p)
    requires t == [] || IsSpace(t[0])
    ensures DropNonSpace(p + t) == t
  {
    if p == [] {
      assert p + t == t;
    } else {
      assert (p + t)[1..] == p[1..] + t;
      DropNonSpaceSkips(p[1..], t);
    }
  }

  lemma {:induction false} DropWordSkips(w: string, t: string)
    requires forall i :: 0 <= i < |w| ==> IsWordChar(w[i])
    requires t == [] || !IsWordChar(t[0])
    ensures DropWord(w + t) == t
  {
    if w == [] {
      assert w + t == t;
    } else {
      assert (w + t)[1..] == w[1..] + t;
      DropWordSkips(w[1..], t);
    }
  }

  /** Whether a link starts does not depend on what follows a whitespace boundary. */
  lemma {:induction false} LinkStartsExtend(p: string, t: string)
    requires p != [] && NoSpace(p)
    requires t == [] || IsSpace(t[0])
    ensures LinkStarts(p + t) == LinkStarts(p)
  {
    var s := p + t;
    assert forall i :: 0 <= i < |p| ==> s[i] == p[i];
    if |p| < |s| {
      assert s[|p|] == t[0];
    }
  }

  /** Link removal splits at a whitespace boundary. */
  lemma {:induction false} RemoveLinksSplit(p: string, t: string)
    requires NoSpace(p)
    requires t == [] || IsSpace(t[0])
    ensures RemoveLinks(p + t) == RemoveLinks(p) + RemoveLinks(t)
    decreases |p|
  {
    if p == [] {
      assert p + t == t;
    } else if LinkStarts(p) {
      LinkStartsExtend(p, t);
      DropNonSpaceSkips(p, t);
      DropNonSpaceSkips(p, []);
      assert p + [] == p;
    } else {
      LinkStartsExtend(p, t);
      assert (p + t)[1..] == p[1..] + t;
      RemoveLinksSplit(p[1..], t);
    }
  }

  /** A link vanishes entirely under link removal. */
  lemma {:induction false} LinkVanishes(n: Noise)
    requires n.Link? && WellFormed(n)
    ensures RemoveLinks(NoiseText(n)) == []
  {
    var p := NoiseText(n);
    DropNonSpaceSkips(p, []);
    assert p + [] == p;
    assert LinkStarts(p);
  }

  /** A tag survives link removal as its marker and some word characters. */
  lemma {:induction false} TagAfterLinks(n: Noise) returns (w: string)
    requires n.Tag? && WellFormed(n)
    ensures RemoveLinks(NoiseText(n)) == [NoiseText(n)[0]] + w
    ensures forall i :: 0 <= i < |w| ==> IsWordChar(w[i])
  {
    var p := NoiseText(n);
    assert p == [p[0]] + n.word;
    assert !LinkStarts(p);
    w := RemoveLinks(n.word);
    assert p[1..] == n.word;
    forall i | 0 <= i < |w| ensures IsWordChar(w[i]) {
      assert w[i] in n.word;
    }
  }

  /** What a tag leaves after link removal, stripped of tags, has no word character. */
  lemma {:induction false} TagRestLeavesNoWord(m: char, w: string, tail: string)
    requires m == '@' || m == '#'
    requires forall i :: 0 <= i < |w| ==> IsWordChar(w[i])
    requires tail == [] || !IsWordChar(tail[0])
    requires NoWordChars(RemoveTags(tail))
    ensures NoWordChars(RemoveTags([m] + w + tail))
  {
    if w == [] {
      BareMarkerLeavesNoWord(m, tail);
      assert [m] + w + tail == [m] + tail;
    } else {
      TaggedWordVanishes(m, w, tail);
    }
  }

  /** A marker and its word are deleted together. */
  lemma {:induction false} TaggedWordVanishes(m: char, w: string, tail: string)
    requires m == '@' || m == '#'
    requires w != [] && forall i :: 0 <= i < |w| ==> IsWordChar(w[i])
    requires tail == [] || !IsWordChar(tail[0])
    ensures RemoveTags([m] + w + tail) == RemoveTags(tail)
  {
    var u := [m] + w + tail;
    assert u[1] == w[0];
    assert TagStarts(u);
    assert u[1..] == w + tail;
    DropWordSkips(w, tail);
  }

  /** A marker not followed by a word character is kept as it is. */
  lemma {:induction false} BareMarkerLeavesNoWord(m: char, tail: string)
    requires m == '@' || m == '#'
    requires tail == [] || !IsWordChar(tail[0])
    requires NoWordChars(RemoveTags(tail))
    ensures NoWordChars(RemoveTags([m] + tail))
  {
    var u := [m] + tail;
    assert !TagStarts(u);
    assert u[1..] == tail;
    var r := RemoveTags(u);
    assert r == [m] + RemoveTags(tail);
    forall i | 0 <= i < |r| ensures !IsWordChar(r[i]) {
      if i > 0 {
        assert r[i] == RemoveTags(tail)[i - 1];
      }
    }
  }

  /** One piece, stripped of links and then of tags, leaves no word character. */
  lemma {:induction false} PieceLeavesNoWord(n: Noise, tail: string)
    requires WellFormed(n)
    requires tail == [] || !IsWordChar(tail[0])
    requires NoWordChars(RemoveTags(tail))
    ensures NoWordChars(RemoveTags(RemoveLinks(NoiseText(n)) + tail))
  {
    if n.Link? {
      LinkVanishes(n);
      assert [] + tail == tail;
    } else {
      var w := TagAfterLinks(n);
      TagRestLeavesNoWord(NoiseText(n)[0], w, tail);
    }
  }

  /** A whitespace character is kept by link removal. */
  lemma {:induction false} SpacePassesLinks(c: char, x: string)
    requires IsSpace(c)
    ensures RemoveLinks([c] + x) == [c] + RemoveLinks(x)
  {
    var u := [c] + x;
    assert u[0] == c && u[1..] == x;
    assert !LinkStarts(u);
  }

  /** A whitespace character is kept by tag removal. */
  lemma {:induction false} SpacePassesTags(c: char, x: string)
    requires IsSpace(c)
    ensures RemoveTags([c] + x) == [c] + RemoveTags(x)
  {
    var u := [c] + x;
    assert u[0] == c && u[1..] == x;
    assert !TagStarts(u);
  }

  /** Whitespace is kept as it is by link removal. */
  lemma {:induction false} SpacesPassLinks(sp: string, x: string)
    requires AllSpace(sp)
    ensures RemoveLinks(sp + x) == sp + RemoveLinks(x)
  {
    if sp == [] {
      assert sp + x == x;
    } else {
      assert sp + x == [sp[0]] + (sp[1..] + x);
      SpacePassesLinks(sp[0], sp[1..] + x);
      SpacesPassLinks(sp[1..], x);
      assert sp + RemoveLinks(x) == [sp[0]] + (sp[1..] + RemoveLinks(x));
    }
  }

  /** Whitespace is kept as it is by tag removal. */
  lemma {:induction false} SpacesPassTags(sp: string, x: string)
    requires AllSpace(sp)
    ensures RemoveTags(sp + x) == sp + RemoveTags(x)
  {
    if sp == [] {
      assert sp + x == x;
    } else {
      assert sp + x == [sp[0]] + (sp[1..] + x);
      SpacePassesTags(sp[0], sp[1..] + x);
      SpacesPassTags(sp[1..], x);
      assert sp + RemoveTags(x) == [sp[0]] + (sp[1..] + RemoveTags(x));
    }
  }

  /** After link and tag removal no word character of the pieces survives. */
  lemma {:induction false} TagsAndLinksLeaveNoWord(ns: seq<Noise>)
    requires forall i :: 0 <= i < |ns| ==> WellFormed(ns[i])
    requires Separated(ns)
    ensures NoWordChars(RemoveTags(RemoveLinks(Render(ns))))
  {
    if ns == [] {
      return;
    }
    var n := ns[0];
    var rest := ns[1..];
    SplitPieces(ns);
    TagsAndLinksLeaveNoWord(rest);
    PieceThenRest(n, Render(rest));
    RenderFirst(ns);
  }

  /** The first piece is well formed, the others are still well formed and
    * separated, and only the last piece may lack whitespace after it. */
  lemma {:induction false} SplitPieces(ns: seq<Noise>)
    requires ns != []
    requires forall i :: 0 <= i < |ns| ==> WellFormed(ns[i])
    requires Separated(ns)
    ensures WellFormed(ns[0])
    ensures forall i :: 0 <= i < |ns[1..]| ==> WellFormed(ns[1..][i])
    ensures Separated(ns[1..])
    ensures ns[0].sep != [] || Render(ns[1..]) == []
  {
    var rest := ns[1..];
    forall i | 0 <= i < |rest| ensures WellFormed(rest[i]) && (i < |rest| - 1 ==> rest[i].sep != []) {
      assert rest[i] == ns[i + 1];
    }
    if ns[0].sep == [] {
      assert rest == [];
    }
  }

  lemma {:induction false} RenderFirst(ns: seq<Noise>)
    requires ns != []
    ensures Render(ns) == NoiseText(ns[0]) + (ns[0].sep + Render(ns[1..]))
  {
    assert Render(ns) == NoiseText(ns[0]) + ns[0].sep + Render(ns[1..]);
  }

  /** A piece and its whitespace in front of a text that cleans to no word
    * character leave none either. */
  lemma {:induction false} PieceThenRest(n: Noise, rest: string)
    requires WellFormed(n)
    requires n.sep != [] || rest == []
    requires NoWordChars(RemoveTags(RemoveLinks(rest)))
    ensures NoWordChars(RemoveTags(RemoveLinks(NoiseText(n) + (n.sep + rest))))
  {
    var x := RemoveLinks(rest);
    var tail := n.sep + x;
    LinksOfPieceThenRest(n, rest);
    SeparatorTail(n.sep, x);
    PieceLeavesNoWord(n, tail);
  }

  /** Whitespace in front of a text that cleans to no word character. */
  lemma {:induction false} SeparatorTail(sp: string, x: string)
    requires AllSpace(sp)
    requires NoWordChars(RemoveTags(x))
    ensures sp != [] ==> !IsWordChar((sp + x)[0])
    ensures NoWordChars(RemoveTags(sp + x))
  {
    SpacesPassTags(sp, x);
    SpacesNoWord(sp, RemoveTags(x));
    if sp != [] {
      assert (sp + x)[0] == sp[0];
    }
  }

  /** Link removal treats a piece and what follows its whitespace apart. */
  lemma {:induction false} LinksOfPieceThenRest(n: Noise, rest: string)
    requires WellFormed(n)
    requires n.sep != [] || rest == []
    ensures RemoveLinks(NoiseText(n) + (n.sep + rest)) == RemoveLinks(NoiseText(n)) + (n.sep + RemoveLinks(rest))
  {
    NoiseHasNoSpace(n);
    if n.sep != [] {
      assert (n.sep + rest)[0] == n.sep[0];
    } else {
      assert n.sep + rest == [];
    }
    RemoveLinksSplit(NoiseText(n), n.sep + rest);
    SpacesPassLinks(n.sep, rest);
  }

  lemma {:induction false} NoiseHasNoSpace(n: Noise)
    requires WellFormed(n)
    ensures NoSpace(NoiseText(n))
  {
    var p := NoiseText(n);
    forall i | 0 <= i < |p| ensures !IsSpace(p[i]) {
      if n.Link? {
        if i >= |p| - |n.tail| {
          assert p[i] == n.tail[i - (|p| - |n.tail|)];
        }
      } else if i > 0 {
        assert p[i] == n.word[i - 1];
      }
    }
  }

  lemma {:induction false} SpacesNoWord(sp: string, s: string)
    requires AllSpace(sp) && NoWordChars(s)
    ensures NoWordChars(sp + s)
  {
    var u := sp + s;
    forall i | 0 <= i < |u| ensures !IsWordChar(u[i]) {
      if i < |sp| {
        assert u[i] == sp[i];
      } else {
        assert u[i] == s[i - |sp|];
      }
    }
  }

  lemma {:induction false} NoWordLeavesSpace(s: string)
    requires NoWordChars(s)
    ensures AllSpace(RemovePunctuation(s))
  {
    var r := RemovePunctuation(s);
    forall i | 0 <= i < |r| ensures IsSpace(r[i]) {
      assert r[i] in s;
    }
  }

  /** Links and tags alone, separated and surrounded by whitespace, clean
    * to the empty string. */
  lemma {:induction false} NoiseCleansToEmpty(lead: string, ns: seq<Noise>, nlp: Nlp)
    requires AllSpace(lead)
    requires forall i :: 0 <= i < |ns| ==> WellFormed(ns[i])
    requires Separated(ns)
    ensures CleanText(Some(lead + Render(ns)), nlp) == ""
  {
    var s := lead + Render(ns);
    var q := RemoveTags(RemoveLinks(s));
    TagsAndLinksLeaveNoWord(ns);
    SpacesPassLinks(lead, Render(ns));
    SpacesPassTags(lead, RemoveLinks(Render(ns)));
    SpacesNoWord(lead, RemoveTags(RemoveLinks(Render(ns))));
    NoWordLeavesSpace(q);
    var p := RemovePunctuation(q);
    var l := Lower(p);
    assert AllSpace(l) by {
      forall i | 0 <= i < |l| ensures IsSpace(l[i]) {
        assert l[i] == LowerChar(p[i]);
      }
    }
    assert LightClean(s) == Strip(l) == "";
  }
}
