/** Player-defined commands, each kept as a README with a frontmatter block. */
module CommandStore {
  import opened Wrappers
  import opened Text
  import opened Runs

  datatype UserCommand = UserCommand(name: string, description: string, body: string)

  datatype CommandError = NoLetterOrDigit | ReservedName | EmptyBody | WriteFailed | RemoveFailed

  // ------------------------------------------------------------------
  // Names

  predicate IsSlugChar(c: char) { IsDigit(c) || 'a' <= c <= 'z' || c == '-' }

  /** Lower-case letters, digits and single dashes between them. */
  ghost predicate IsSlug(s: string) {
    && s != "" && s[0] != '-' && s[|s| - 1] != '-'
    && (forall i :: 0 <= i < |s| ==> IsSlugChar(s[i]))
    && (forall i, j :: 0 <= i < j < |s| && j == i + 1 ==> s[i] != '-' || s[j] != '-')
  }

  /** The letters and digits of `s`, lower-cased. */
  function Letters(s: string): string {
    if s == "" then ""
    else (if IsAlphanumeric(s[|s| - 1]) then Letters(s[..|s| - 1]) + [ToLower(s[|s| - 1])] else Letters(s[..|s| - 1]))
  }

  /** The slug before its ends are trimmed: what the loop builds. */
  function Dashed(s: string): string {
    if s == "" then ""
    else
      var front, c := Dashed(s[..|s| - 1]), s[|s| - 1];
      if IsAlphanumeric(c) then front + [ToLower(c)]
      else if EndsInDash(s[..|s| - 1]) then front
      else front + "-"
  }

  predicate EndsInDash(s: string) { s != "" && !IsAlphanumeric(s[|s| - 1]) }

  function TrimDashStart(s: string): (r: string)
    ensures r == "" || r[0] != '-'
  {
    if s != "" && s[0] == '-' then TrimDashStart(s[1..]) else s
  }

  function TrimDashEnd(s: string): (r: string)
    ensures r == "" || r[|r| - 1] != '-'
    ensures r <= s && forall i :: |r| <= i < |s| ==> s[i] == '-'
  {
    if s != "" && s[|s| - 1] == '-' then TrimDashEnd(s[..|s| - 1]) else s
  }

  function TrimDashes(s: string): string { TrimDashEnd(TrimDashStart(s)) }

  function Normalized(raw: string, reserved: set<string>): Result<string, CommandError> {
    var slug := TrimDashes(Dashed(Trim(raw)));
    if slug == "" then Err(NoLetterOrDigit)
    else if slug in reserved then Err(ReservedName)
    else Ok(slug)
  }

  method NormalizeName(raw: string, reserved: set<string>) returns (r: Result<string, CommandError>)
    ensures r == Normalized(raw, reserved)
  {
    var trimmed := Trim(raw);
    var slug, prevDash := "", false;
    for i := 0 to |trimmed|
      invariant slug == Dashed(trimmed[..i]) && prevDash == EndsInDash(trimmed[..i])
    {
      assert trimmed[..i + 1][..i] == trimmed[..i] && trimmed[..i + 1][i] == trimmed[i];
      var ch := trimmed[i];
      if IsAlphanumeric(ch) {
        slug, prevDash := slug + [ToLower(ch)], false;
      } else if !prevDash {
        slug, prevDash := slug + "-", true;
      }
    }
    assert trimmed[..|trimmed|] == trimmed;
    slug := TrimDashes(slug);
    if slug == "" { return Err(NoLetterOrDigit); }
    if slug in reserved { return Err(ReservedName); }
    r := Ok(slug);
  }

  /** Dashes come one at a time, and the last is there if the text ends so. */
  ghost predicate IsDashed(s: string) {
    && (forall i :: 0 <= i < |s| ==> IsSlugChar(s[i]))
    && (forall i, j :: 0 <= i < j < |s| && j == i + 1 ==> s[i] != '-' || s[j] != '-')
  }

  lemma LowerLetter(c: char)
    ensures IsAlphanumeric(c) ==>
      IsSlugChar(ToLower(c)) && ToLower(c) != '-' && IsAlphanumeric(ToLower(c)) && ToLower(ToLower(c)) == ToLower(c)
    ensures IsSlugChar(c) ==> c == '-' || (IsAlphanumeric(c) && ToLower(c) == c)
    ensures !IsAlphanumeric('-') && IsSlugChar('-')
  {
  }

  lemma DashedGrows(d: string, c: char)
    requires IsDashed(d) && IsSlugChar(c) && (c == '-' ==> d == "" || d[|d| - 1] != '-')
    ensures IsDashed(d + [c])
  {
  }

  lemma {:induction false} DashedShape(s: string)
    ensures IsDashed(Dashed(s)) && Letters(Dashed(s)) == Letters(s)
    ensures EndsInDash(s) <==> Dashed(s) != "" && Dashed(s)[|Dashed(s)| - 1] == '-'
  {
    hide IsSlugChar, IsAlphanumeric, ToLower;
    if s != "" {
      var front, c := s[..|s| - 1], s[|s| - 1];
      DashedShape(front);
      LowerLetter(c);
      var d, e := Dashed(front), Dashed(s);
      hide IsDashed;
      if IsAlphanumeric(c) {
        assert e[..|e| - 1] == d && e[|e| - 1] == ToLower(c);
        DashedGrows(d, ToLower(c));
      } else if !EndsInDash(front) {
        assert e[..|e| - 1] == d && e[|e| - 1] == '-';
        DashedGrows(d, '-');
      }
    }
  }

  lemma {:induction false} LettersSplit(a: string, b: string)
    ensures Letters(a + b) == Letters(a) + Letters(b)
  {
    if b == "" {
      assert a + b == a && Letters(a) + Letters(b) == Letters(a);
    } else {
      LettersSplit(a, b[..|b| - 1]);
      assert (a + b)[..|a + b| - 1] == a + b[..|b| - 1];
    }
  }

  lemma {:induction false} NoLetters(s: string)
    requires forall i :: 0 <= i < |s| ==> !IsAlphanumeric(s[i])
    ensures Letters(s) == ""
  {
    if s != "" { NoLetters(s[..|s| - 1]); }
  }

  lemma PartIsDashed(s: string, from: nat, to: nat)
    requires IsDashed(s) && from <= to <= |s|
    ensures IsDashed(s[from..to])
  {
  }

  lemma {:induction false} DashStartTrimmed(s: string)
    requires IsDashed(s)
    ensures IsDashed(TrimDashStart(s)) && Letters(TrimDashStart(s)) == Letters(s)
  {
    if s != "" && s[0] == '-' {
      PartIsDashed(s, 1, |s|);
      assert s[1..|s|] == s[1..];
      hide IsDashed, Letters;
      DashStartTrimmed(s[1..]);
      assert s == "-" + s[1..];
      LettersSplit("-", s[1..]);
      NoLetters("-");
    }
  }

  lemma DashEndTrimmed(s: string)
    requires IsDashed(s)
    ensures IsDashed(TrimDashEnd(s)) && Letters(TrimDashEnd(s)) == Letters(s)
  {
  }

  lemma TrimmedDashes(s: string)
    requires IsDashed(s)
    ensures var r := TrimDashes(s); Letters(r) == Letters(s) && (r == "" || IsSlug(r))
  {
    hide IsSlugChar, Letters;
    DashStartTrimmed(s);
    DashEndTrimmed(TrimDashStart(s));
  }

  lemma SlugHasLetter(s: string)
    requires IsSlug(s)
    ensures Letters(s) != ""
  {
  }

  lemma WhitespaceIsNoLetter(c: char)
    ensures IsWhitespace(c) ==> !IsAlphanumeric(c)
  {
  }

  lemma {:induction false} TrimStartLetters(s: string)
    ensures Letters(TrimStart(s)) == Letters(s)
  {
    hide IsWhitespace, IsAlphanumeric;
    if s != "" && IsWhitespace(s[0]) {
      hide Letters;
      TrimStartLetters(s[1..]);
      assert s == [s[0]] + s[1..];
      LettersSplit([s[0]], s[1..]);
      WhitespaceIsNoLetter(s[0]);
      NoLetters([s[0]]);
    }
  }

  lemma {:induction false} TrimEndLetters(s: string)
    ensures Letters(TrimEnd(s)) == Letters(s)
  {
    hide IsWhitespace, IsAlphanumeric;
    if s != "" && IsWhitespace(s[|s| - 1]) {
      WhitespaceIsNoLetter(s[|s| - 1]);
      TrimEndLetters(s[..|s| - 1]);
    }
  }

  /** An accepted name is a slug with the letters and digits asked for; a name
      is refused for having none exactly when it has none. */
  lemma NormalizedShape(raw: string, reserved: set<string>)
    ensures var r := Normalized(raw, reserved);
      && (r.Ok? ==> IsSlug(r.value) && r.value !in reserved && Letters(r.value) == Letters(raw))
      && (r == Err(NoLetterOrDigit) <==> Letters(raw) == "")
  {
    hide Letters, Dashed, TrimDashes, IsSlug, IsDashed, TrimStart, TrimEnd;
    var d := Dashed(Trim(raw));
    DashedShape(Trim(raw));
    TrimmedDashes(d);
    TrimStartLetters(raw);
    TrimEndLetters(TrimStart(raw));
    if TrimDashes(d) != "" { SlugHasLetter(TrimDashes(d)); }
    NoLetters("");
  }

  lemma DashedEnd(s: string)
    ensures GapAfter(Dashed(s), IsAlphanumeric, false) == GapAfter(LowerAll(s), IsAlphanumeric, false)
  {
    DashedShape(s);
    hide IsSlugChar, IsDashed, Letters;
    if s != "" {
      LowerLetter(s[|s| - 1]);
      LowerOther(s[|s| - 1]);
    }
  }

  lemma LowerOther(c: char)
    ensures IsAlphanumeric(ToLower(c)) == IsAlphanumeric(c)
  {
  }

  lemma {:induction false} DashedRuns(s: string)
    ensures Marked(Dashed(s), IsAlphanumeric) == Marked(LowerAll(s), IsAlphanumeric)
  {
    hide Marked, IsAlphanumeric, ToLower, GapAfter, HasNone;
    if s == "" {
      assert LowerAll(s) == "";
    } else {
      var front, c := s[..|s| - 1], s[|s| - 1];
      DashedRuns(front);
      DashedEnd(front);
      SameNone(Dashed(front), LowerAll(front));
      LowerOther(c);
      LowerLetter(c);
      assert LowerAll(s) == LowerAll(front) + [ToLower(c)];
      MarkedGrows(LowerAll(front), ToLower(c), IsAlphanumeric);
      MarkedGrows(Dashed(front), if IsAlphanumeric(c) then ToLower(c) else '-', IsAlphanumeric);
      var more := Dashed(front) + "-";
      assert Marked(Dashed(front), IsAlphanumeric) + [] == Marked(Dashed(front), IsAlphanumeric);
    }
  }

  lemma SameNone(a: string, b: string)
    requires Marked(a, IsAlphanumeric) == Marked(b, IsAlphanumeric)
    ensures HasNone(a, IsAlphanumeric) == HasNone(b, IsAlphanumeric)
  {
    SomethingMarked(a, IsAlphanumeric, false, false);
    SomethingMarked(b, IsAlphanumeric, false, false);
  }

  lemma {:induction false} DashStartSplits(s: string) returns (before: string)
    ensures s == before + TrimDashStart(s) && HasNone(before, IsAlphanumeric)
  {
    if s != "" && s[0] == '-' {
      var rest := DashStartSplits(s[1..]);
      before := [s[0]] + rest;
    } else {
      before := "";
    }
  }

  lemma DashesRuns(s: string)
    ensures Marked(TrimDashes(s), IsAlphanumeric) == Marked(s, IsAlphanumeric)
  {
    hide TrimDashStart, TrimDashEnd, Marked;
    var before := DashStartSplits(s);
    var t := TrimDashStart(s);
    var r := TrimDashEnd(t);
    var after := t[|r|..];
    assert t == r + after;
    assert s == before + r + after;
    assert HasNone(after, IsAlphanumeric);
    MarkedWithin(before, r, after, IsAlphanumeric);
  }

  lemma TrimRuns(s: string)
    ensures Marked(LowerAll(Trim(s)), IsAlphanumeric) == Marked(LowerAll(s), IsAlphanumeric)
  {
    hide Trim, Marked, IsAlphanumeric;
    var before, after := TrimSplits(s);
    var t := Trim(s);
    LowerBlank(before);
    LowerBlank(after);
    assert LowerAll(s) == LowerAll(before) + LowerAll(t) + LowerAll(after);
    MarkedWithin(LowerAll(before), LowerAll(t), LowerAll(after), IsAlphanumeric);
  }

  lemma LowerBlank(s: string)
    requires IsBlank(s)
    ensures HasNone(LowerAll(s), IsAlphanumeric)
  {
    hide IsWhitespace, IsAlphanumeric, ToLower;
    forall i | 0 <= i < |s| ensures !IsAlphanumeric(LowerAll(s)[i]) {
      WhitespaceIsNoLetter(s[i]);
      LowerOther(s[i]);
    }
  }

  /** Names keep their runs of letters and digits, in lower case: what was one run
      still is, and what was apart still is, now by a single dash. */
  lemma NormalizedKeepsRuns(raw: string, reserved: set<string>)
    ensures var r := Normalized(raw, reserved);
      r.Ok? ==> IsSlug(r.value) && Marked(r.value, IsAlphanumeric) == Marked(LowerAll(raw), IsAlphanumeric)
  {
    NormalizedShape(raw, reserved);
    hide Dashed, TrimDashes, Trim, Marked, IsSlug, Letters, LowerAll;
    DashesRuns(Dashed(Trim(raw)));
    DashedRuns(Trim(raw));
    TrimRuns(raw);
  }

  lemma {:induction false} SlugIsDashed(s: string, k: nat)
    requires k <= |s| && forall i :: 0 <= i < |s| ==> IsSlugChar(s[i])
    requires forall i, j :: 0 <= i < j < |s| && j == i + 1 ==> s[i] != '-' || s[j] != '-'
    ensures Dashed(s[..k]) == s[..k]
  {
    if k > 0 {
      SlugIsDashed(s, k - 1);
      assert s[..k][..k - 1] == s[..k - 1] && s[..k] == s[..k - 1] + [s[k - 1]];
      if s[k - 1] == '-' && k > 1 { assert s[..k - 1][k - 2] == s[k - 2] != '-'; }
    }
  }

  /** Slugs are exactly the names left alone, so normalizing is idempotent. */
  lemma NormalizedIdempotent(raw: string, reserved: set<string>)
    ensures var r := Normalized(raw, reserved); r.Ok? ==> Normalized(r.value, reserved) == r
  {
    var r := Normalized(raw, reserved);
    if r.Ok? {
      NormalizedShape(raw, reserved);
      SlugIsUnchanged(r.value);
    }
  }

  lemma SlugIsUnchanged(s: string)
    requires IsSlug(s)
    ensures TrimDashes(Dashed(Trim(s))) == s
  {
    assert !IsWhitespace(s[0]) && !IsWhitespace(s[|s| - 1]);
    TrimOfTrimmed(s);
    SlugIsDashed(s, |s|);
    assert s[..|s|] == s;
  }

  // ------------------------------------------------------------------
  // One-line descriptions

  function TakeWord(s: string): (w: string)
    ensures w <= s && forall i :: 0 <= i < |w| ==> !IsWhitespace(w[i])
    ensures |w| < |s| ==> IsWhitespace(s[|w|])
  {
    if s == "" || IsWhitespace(s[0]) then "" else [s[0]] + TakeWord(s[1..])
  }

  /** The text split at runs of whitespace. */
  function Words(s: string): seq<string>
    decreases |s|
  {
    if s == "" then []
    else if IsWhitespace(s[0]) then Words(s[1..])
    else
      assert TakeWord(s) != "";
      [TakeWord(s)] + Words(s[|TakeWord(s)|..])
  }

  function Joined(words: seq<string>): string {
    if words == [] then ""
    else if |words| == 1 then words[0]
    else words[0] + " " + Joined(words[1..])
  }

  function SingleLine(text: string): string { Joined(Words(text)) }

  predicate IsWord(w: string) { w != "" && forall i :: 0 <= i < |w| ==> !IsWhitespace(w[i]) }

  predicate AllWords(words: seq<string>) { forall k :: 0 <= k < |words| ==> IsWord(words[k]) }

  /** Trimmed, and with no whitespace but blanks. */
  predicate IsOneLine(s: string) {
    IsTrimmed(s) && forall i :: 0 <= i < |s| ==> s[i] == ' ' || !IsWhitespace(s[i])
  }

  lemma {:induction false} WordsAreWords(s: string)
    ensures AllWords(Words(s))
    decreases |s|
  {
    if s != "" {
      if IsWhitespace(s[0]) {
        WordsAreWords(s[1..]);
      } else {
        assert TakeWord(s) != "";
        WordsAreWords(s[|TakeWord(s)|..]);
      }
    }
  }

  lemma {:induction false} JoinedIsOneLine(words: seq<string>)
    requires AllWords(words)
    ensures IsOneLine(Joined(words)) && (words != [] ==> Joined(words) != "" && !IsWhitespace(Joined(words)[0]))
  {
    if |words| > 1 {
      var rest := words[1..];
      JoinedIsOneLine(rest);
      var j := Joined(words);
      assert j == words[0] + (" " + Joined(rest));
      assert j[|j| - 1] == Joined(rest)[|Joined(rest)| - 1];
      forall i | 0 <= i < |j| ensures j[i] == ' ' || !IsWhitespace(j[i]) {
        if i > |words[0]| { assert j[i] == Joined(rest)[i - |words[0]| - 1]; }
      }
    } else if |words| == 1 {
      assert IsWord(words[0]);
    }
  }

  lemma TakeWordOf(w: string, tail: string)
    requires IsWord(w) && (tail == "" || IsWhitespace(tail[0]))
    ensures TakeWord(w + tail) == w
    decreases |w|
  {
    hide IsWhitespace;
    assert (w + tail)[1..] == w[1..] + tail;
    if |w| > 1 {
      TakeWordOf(w[1..], tail);
    } else {
      assert w[1..] + tail == tail && w == [w[0]];
    }
  }

  lemma {:induction false} WordsOfJoined(words: seq<string>)
    requires AllWords(words)
    ensures Words(Joined(words)) == words
  {
    if words != [] {
      var w, rest := words[0], words[1..];
      var tail := if rest == [] then "" else " " + Joined(rest);
      assert IsWord(w) && Joined(words) == w + tail;
      TakeWordOf(w, tail);
      assert (w + tail)[|w|..] == tail;
      if rest != [] {
        WordsOfJoined(rest);
        assert tail[1..] == Joined(rest);
      }
      assert words == [w] + rest;
    }
  }

  predicate IsBlack(c: char) { !IsWhitespace(c) }

  lemma {:induction false} WordsRuns(s: string, had: bool)
    ensures MarkedFrom(Joined(Words(s)), IsBlack, had, true) == MarkedFrom(s, IsBlack, had, true)
    decreases |s|
  {
    hide IsWhitespace;
    if s != "" {
      if IsWhitespace(s[0]) {
        WordsRuns(s[1..], had);
      } else {
        var w := TakeWord(s);
        var rest := s[|w|..];
        assert w != "" && s == w + rest;
        WordsRuns(rest, true);
        WordsAreWords(rest);
        WordRuns(w, rest, Words(rest), had);
      }
    }
  }

  /** A word, and the rest joined to it. */
  lemma WordRuns(w: string, rest: string, words: seq<string>, had: bool)
    requires IsWord(w) && (rest == "" || IsWhitespace(rest[0])) && AllWords(words)
    requires MarkedFrom(Joined(words), IsBlack, true, true) == MarkedFrom(rest, IsBlack, true, true)
    ensures MarkedFrom(Joined([w] + words), IsBlack, had, true) == MarkedFrom(w + rest, IsBlack, had, true)
  {
    hide IsWhitespace;
    var tail := if words == [] then "" else " " + Joined(words);
    assert Joined([w] + words) == w + tail by { JoinedWith(w, words); }
    assert IsBlack(w[0]) && !HasNone(w, IsBlack);
    MarkedAppend(w, rest, IsBlack, had, true);
    MarkedAppend(w, tail, IsBlack, had, true);
    hide HasNone, Joined;
    assert !GapAfter(w, IsBlack, true);
    BehindBlank(rest);
    if words != [] {
      assert tail[0] == ' ' && tail[1..] == Joined(words);
      BlankIsWhite();
      assert MarkedFrom(tail, IsBlack, true, false) == MarkedFrom(Joined(words), IsBlack, true, true);
    }
  }

  lemma JoinedWith(w: string, words: seq<string>)
    ensures Joined([w] + words) == w + if words == [] then "" else " " + Joined(words)
  {
    assert ([w] + words)[1..] == words;
  }

  lemma BlankIsWhite()
    ensures IsWhitespace(' ') && !IsBlack(' ')
  {
  }

  lemma BehindBlank(rest: string)
    requires rest == "" || IsWhitespace(rest[0])
    ensures MarkedFrom(rest, IsBlack, true, false) == MarkedFrom(rest, IsBlack, true, true)
  {
  }

  /** Descriptions keep their words as they are, now a single blank apart. */
  lemma SingleLineKeepsRuns(text: string)
    ensures Marked(SingleLine(text), IsBlack) == Marked(text, IsBlack)
    ensures forall i :: 0 <= i < |SingleLine(text)| - 1 && SingleLine(text)[i] == ' ' ==> SingleLine(text)[i + 1] != ' '
  {
    WordsRuns(text, false);
    GapBeforeFirst(SingleLine(text), IsBlack);
    GapBeforeFirst(text, IsBlack);
    WordsAreWords(text);
    SingleBlanks(Words(text));
  }

  lemma {:induction false} SingleBlanks(words: seq<string>)
    requires AllWords(words)
    ensures forall i :: 0 <= i < |Joined(words)| - 1 && Joined(words)[i] == ' ' ==> Joined(words)[i + 1] != ' '
  {
    hide IsWhitespace;
    BlankIsWhite();
    if |words| > 1 {
      var rest := words[1..];
      SingleBlanks(rest);
      JoinedIsOneLine(rest);
      var j := Joined(words);
      assert j == words[0] + (" " + Joined(rest)) && IsWord(words[0]);
      forall i | 0 <= i < |j| - 1 && j[i] == ' ' ensures j[i + 1] != ' ' {
        if i == |words[0]| {
          assert j[i + 1] == Joined(rest)[0];
        } else if i > |words[0]| {
          assert j[i] == Joined(rest)[i - |words[0]| - 1] && j[i + 1] == Joined(rest)[i - |words[0]|];
        }
      }
    } else if |words| == 1 {
      assert IsWord(words[0]);
    }
  }

  /** A description keeps its words and becomes one line; a one-line one is
      left as its words were. */
  lemma SingleLineShape(text: string)
    ensures IsOneLine(SingleLine(text)) && Words(SingleLine(text)) == Words(text)
    ensures SingleLine(SingleLine(text)) == SingleLine(text)
  {
    WordsAreWords(text);
    JoinedIsOneLine(Words(text));
    WordsOfJoined(Words(text));
  }

  // ------------------------------------------------------------------
  // The README

  function NameLine(c: UserCommand): string { "name: " + c.name }

  function DescriptionLine(c: UserCommand): string { "description: " + c.description }

  function Frontmatter(c: UserCommand): string { NameLine(c) + "\n" + DescriptionLine(c) }

  function RenderReadme(c: UserCommand): string {
    "---\n" + (Frontmatter(c) + "\n---\n" + ("\n" + c.body + "\n"))
  }

  lemma RenderedSpelled(c: UserCommand)
    ensures RenderReadme(c) ==
      "---\nname: " + c.name + "\ndescription: " + c.description + "\n---\n\n" + c.body + "\n"
  {
    assert "---\n" + "name: " == "---\nname: ";
    assert "\n" + "description: " == "\ndescription: ";
    assert "\n---\n" + "\n" == "\n---\n\n";
  }

  /** What precedes and what follows the first `sep`. */
  function SplitOnce(s: string, sep: string): Option<(string, string)>
    requires sep != ""
  {
    if sep <= s then Some(("", s[|sep|..]))
    else if s == "" then None
    else
      var r := SplitOnce(s[1..], sep);
      if r.None? then None else Some(([s[0]] + r.value.0, r.value.1))
  }

  lemma {:induction false} SplitOnceAt(front: string, sep: string, back: string)
    requires sep != "" && forall k :: 0 <= k < |front| ==> !(sep <= (front + sep + back)[k..])
    ensures SplitOnce(front + sep + back, sep) == Some((front, back))
  {
    var s := front + sep + back;
    if front == "" {
      assert s == sep + back;
      assert s[|sep|..] == back;
    } else {
      assert s[0..] == s;
      var rest := front[1..];
      assert s[1..] == rest + sep + back;
      forall k | 0 <= k < |rest| ensures !(sep <= (rest + sep + back)[k..]) {
        assert (rest + sep + back)[k..] == s[k + 1..];
      }
      SplitOnceAt(rest, sep, back);
      assert front == [front[0]] + rest && s[0] == front[0];
    }
  }

  function SplitFrontmatter(text: string): (Option<string>, string) {
    if !("---\n" <= text) then (None, text)
    else
      var r := SplitOnce(text[4..], "\n---\n");
      if r.None? then (None, text) else (Some(r.value.0), r.value.1)
  }

  /** A carriage return before the line feed is not part of the line. */
  function WithoutReturn(s: string): string {
    if s != "" && s[|s| - 1] == '\r' then s[..|s| - 1] else s
  }

  function Lines(s: string): seq<string>
    decreases |s|
  {
    if s == "" then []
    else
      var line := BeforeFirst(s, '\n');
      if line == s then [s] else [WithoutReturn(line)] + Lines(s[|line| + 1..])
  }

  /** The value of the first `key: value` line. */
  function FieldIn(lines: seq<string>, key: string): Option<string> {
    if lines == [] then None
    else
      var pair := SplitOnce(lines[0], ":");
      if pair.Some? && Trim(pair.value.0) == key then Some(Trim(pair.value.1)) else FieldIn(lines[1..], key)
  }

  function Field(frontmatter: string, key: string): Option<string> { FieldIn(Lines(frontmatter), key) }

  function ReadCommand(name: string, text: string): UserCommand {
    var (front, body) := SplitFrontmatter(text);
    var description := if front.Some? then Field(front.value, "description") else None;
    UserCommand(name, if description.Some? then description.value else "", Trim(body))
  }

  /** Without a frontmatter block the whole text is the body. */
  lemma ReadPlain(name: string, text: string)
    requires "---\n" <= text ==> SplitOnce(text[4..], "\n---\n").None?
    ensures ReadCommand(name, text) == UserCommand(name, "", Trim(text))
  {
  }

  /** `value` is what the first line of the field has behind its colon. */
  ghost predicate IsFirstField(lines: seq<string>, key: string, value: string) {
    exists k :: 0 <= k < |lines| && IsFieldLine(lines[k], key, value) && NoField(lines[..k], key)
  }

  ghost predicate NoField(lines: seq<string>, key: string) {
    forall j :: 0 <= j < |lines| ==> !IsField(lines[j], key)
  }

  ghost predicate IsField(line: string, key: string) {
    exists value :: IsFieldLine(line, key, value)
  }

  ghost predicate IsFieldLine(line: string, key: string, value: string) {
    exists before, after :: IsSplitAtColon(line, before, after) && Trim(before) == key && Trim(after) == value
  }

  predicate IsSplitAtColon(line: string, before: string, after: string) {
    line == before + ":" + after && ':' !in before
  }

  lemma FieldLineIs(line: string, key: string)
    ensures var pair := SplitOnce(line, ":");
      && (pair.Some? && Trim(pair.value.0) == key ==> IsFieldLine(line, key, Trim(pair.value.1)))
      && (IsField(line, key) ==> pair.Some? && Trim(pair.value.0) == key)
  {
    hide Trim;
    var pair := SplitOnce(line, ":");
    if pair.Some? {
      ColonSplits(line);
      assert IsSplitAtColon(line, pair.value.0, pair.value.1);
    }
    if IsField(line, key) {
      var value :| IsFieldLine(line, key, value);
      var before, after :| IsSplitAtColon(line, before, after) && Trim(before) == key && Trim(after) == value;
      forall k | 0 <= k < |before| ensures !(":" <= (before + ":" + after)[k..]) {
        assert (before + ":" + after)[k..][0] == before[k];
      }
      SplitOnceAt(before, ":", after);
    }
  }

  lemma {:induction false} ColonSplits(line: string)
    requires SplitOnce(line, ":").Some?
    ensures var (before, after) := SplitOnce(line, ":").value; line == before + ":" + after && ':' !in before
  {
    if line != "" && line[0] != ':' {
      ColonSplits(line[1..]);
      hide SplitOnce;
      assert line == [line[0]] + line[1..];
    } else if line != "" {
      assert line == ":" + line[1..];
    }
  }

  lemma {:induction false} FieldIs(lines: seq<string>, key: string)
    ensures var r := FieldIn(lines, key);
      if r.Some? then IsFirstField(lines, key, r.value) else NoField(lines, key)
  {
    hide SplitOnce, Trim, IsFieldLine, IsField;
    if lines != [] {
      FieldLineIs(lines[0], key);
      var pair := SplitOnce(lines[0], ":");
      if pair.Some? && Trim(pair.value.0) == key {
        assert NoField(lines[..0], key);
      } else {
        FieldIs(lines[1..], key);
        var r := FieldIn(lines[1..], key);
        if r.Some? {
          var k :| 0 <= k < |lines[1..]| && IsFieldLine(lines[1..][k], key, r.value) && NoField(lines[1..][..k], key);
          assert lines[k + 1] == lines[1..][k];
          var front := lines[..k + 1];
          forall j | 0 <= j < |front| ensures !IsField(front[j], key) {
            if j > 0 { assert front[j] == lines[1..][..k][j - 1]; }
          }
        } else {
          forall j | 0 <= j < |lines| ensures !IsField(lines[j], key) {
            if j > 0 { assert lines[j] == lines[1..][j - 1]; }
          }
        }
      }
    }
  }

  /** Otherwise the description is the first such field between the delimiters, if
      any, and the body what follows the first closing one. */
  lemma ReadParts(name: string, front: string, body: string)
    requires forall k :: 0 <= k < |front| ==> !("\n---\n" <= (front + "\n---\n" + body)[k..])
    ensures var c := ReadCommand(name, "---\n" + (front + "\n---\n" + body));
      && c.name == name && c.body == Trim(body)
      && (IsFirstField(Lines(front), "description", c.description) ||
          (c.description == "" && NoField(Lines(front), "description")))
  {
    hide Trim, Lines, NoField, IsFirstField, FieldIn, SplitOnce;
    var text := "---\n" + (front + "\n---\n" + body);
    assert text[4..] == front + "\n---\n" + body;
    SplitOnceAt(front, "\n---\n", body);
    FieldIs(Lines(front), "description");
  }

  /** What saving makes of what it accepts. */
  ghost predicate IsSaved(c: UserCommand) {
    IsSlug(c.name) && IsOneLine(c.description) && IsTrimmed(c.body) && c.body != ""
  }

  // ------------------------------------------------------------------
  // Reading back what was written

  lemma TrimLeading(c: char, s: string)
    requires IsWhitespace(c) && IsTrimmed(s)
    ensures Trim([c] + s) == s
  {
    assert ([c] + s)[1..] == s;
    TrimOfTrimmed(s);
  }

  lemma TrimBoth(c: char, s: string, d: char)
    requires IsWhitespace(c) && IsWhitespace(d) && IsTrimmed(s) && s != ""
    ensures Trim([c] + s + [d]) == s
  {
  }

  lemma {:induction false} BeforeFirstIs(line: string, c: char, rest: string)
    requires c !in line
    ensures BeforeFirst(line + [c] + rest, c) == line && BeforeFirst(line, c) == line
  {
    if line != "" {
      assert line == [line[0]] + line[1..];
      BeforeFirstIs(line[1..], c, rest);
      assert (line + [c] + rest)[1..] == line[1..] + [c] + rest;
    } else {
      assert (line + [c] + rest)[0] == c;
    }
  }

  lemma NotPrefix(sep: string, s: string, i: nat)
    requires i < |sep| && i < |s| && s[i] != sep[i]
    ensures !(sep <= s)
  {
  }

  lemma SavedHasNoNewline(c: UserCommand)
    requires IsSaved(c)
    ensures '\n' !in NameLine(c) && '\n' !in DescriptionLine(c) && NameLine(c)[|NameLine(c)| - 1] != '\r'
  {
  }

  /** The first closing delimiter is the one rendering wrote, whatever the
      description and the body hold. */
  lemma FrontmatterEndsOnce(c: UserCommand, k: nat)
    requires IsSaved(c) && k < |Frontmatter(c)|
    ensures !("\n---\n" <= (Frontmatter(c) + "\n---\n" + ("\n" + c.body + "\n"))[k..])
  {
    SavedHasNoNewline(c);
    hide IsSaved, IsSlug, IsOneLine;
    var front, name := Frontmatter(c), NameLine(c);
    var s := front + "\n---\n" + ("\n" + c.body + "\n");
    assert s[k] == front[k] && s[k..][0] == s[k] && s[k..][1] == s[k + 1];
    if k < |name| {
      assert front[k] == name[k];
      NotPrefix("\n---\n", s[k..], 0);
    } else if k > |name| {
      assert front[k] == DescriptionLine(c)[k - |name| - 1];
      NotPrefix("\n---\n", s[k..], 0);
    } else {
      assert s[k + 1] == front[k + 1] == DescriptionLine(c)[0] == 'd';
      NotPrefix("\n---\n", s[k..], 1);
    }
  }

  lemma SplitRendered(c: UserCommand)
    requires IsSaved(c)
    ensures SplitFrontmatter(RenderReadme(c)) == (Some(Frontmatter(c)), "\n" + c.body + "\n")
  {
    var front, back := Frontmatter(c), "\n" + c.body + "\n";
    var rest := front + "\n---\n" + back;
    assert RenderReadme(c)[4..] == rest;
    forall k | 0 <= k < |front| ensures !("\n---\n" <= rest[k..]) { FrontmatterEndsOnce(c, k); }
    hide IsSaved, Frontmatter, RenderReadme;
    SplitOnceAt(front, "\n---\n", back);
  }

  lemma LinesOfFrontmatter(c: UserCommand)
    requires IsSaved(c)
    ensures Lines(Frontmatter(c)) == [NameLine(c), DescriptionLine(c)]
  {
    SavedHasNoNewline(c);
    hide IsSaved;
    var front := Frontmatter(c);
    BeforeFirstIs(NameLine(c), '\n', DescriptionLine(c));
    BeforeFirstIs(DescriptionLine(c), '\n', "");
    assert front == NameLine(c) + ['\n'] + DescriptionLine(c);
    assert |BeforeFirst(front, '\n')| < |front|;
    assert front[|NameLine(c)| + 1..] == DescriptionLine(c);
    assert Lines(DescriptionLine(c)) == [DescriptionLine(c)];
  }

  /** `key: value` splits at its first colon. */
  lemma SplitAtColon(key: string, value: string)
    requires ':' !in key
    ensures SplitOnce(key + ":" + value, ":") == Some((key, value))
  {
    var s := key + ":" + value;
    forall k | 0 <= k < |key| ensures !(":" <= s[k..]) {
      assert s[k..][0] == key[k];
      NotPrefix(":", s[k..], 0);
    }
    SplitOnceAt(key, ":", value);
  }

  /** What a `name: value` line means to a search for `key`. */
  lemma FieldLine(lines: seq<string>, key: string, name: string, value: string)
    requires lines != [] && lines[0] == name + ":" + value && ':' !in name && IsTrimmed(name)
    ensures FieldIn(lines, key) == if name == key then Some(Trim(value)) else FieldIn(lines[1..], key)
  {
    SplitAtColon(name, value);
    TrimOfTrimmed(name);
    hide SplitOnce, Trim;
  }

  lemma DescriptionFound(c: UserCommand)
    requires IsSaved(c)
    ensures Field(Frontmatter(c), "description") == Some(c.description)
  {
    LineParts(c);
    LinesOfFrontmatter(c);
    TrimLeading(' ', c.description);
    hide IsSaved, Lines, Frontmatter, Trim, FieldIn, IsTrimmed, NameLine, DescriptionLine;
    var lines := [NameLine(c), DescriptionLine(c)];
    NamesDiffer();
    FieldLine(lines, "description", "name", " " + c.name);
    FieldLine(lines[1..], "description", "description", " " + c.description);
  }

  lemma NamesDiffer()
    ensures "name" != "description" && ':' !in "name" && ':' !in "description"
  {
  }

  lemma LineParts(c: UserCommand)
    ensures NameLine(c) == "name" + ":" + (" " + c.name)
    ensures DescriptionLine(c) == "description" + ":" + (" " + c.description)
    ensures IsTrimmed("name") && IsTrimmed("description")
  {
  }

  /** Reading a rendered README gives the command back. */
  lemma ReadRendered(c: UserCommand)
    requires IsSaved(c)
    ensures ReadCommand(c.name, RenderReadme(c)) == c
  {
    SplitRendered(c);
    DescriptionFound(c);
    TrimBoth('\n', c.body, '\n');
    hide IsSlug, IsOneLine, Field, SplitFrontmatter, RenderReadme, Trim;
  }

  // ------------------------------------------------------------------
  // The store

  /** Names the server itself answers to, which no saved command may take. */
  class Store {
    const reserved: set<string>
    var readmes: map<string, string>
    /** How many writes and removals have failed so far. */
    ghost var faults: nat

    constructor (reserved: set<string>)
      ensures this.reserved == reserved && readmes == map[]
    {
      this.reserved := reserved;
      readmes, faults := map[], 0;
    }

    method Save(name: string, description: string, body: string) returns (r: Result<UserCommand, CommandError>)
      modifies this
      ensures r.Ok? ==>
        && IsSaved(r.value) && Normalized(name, reserved) == Ok(r.value.name)
        && r.value.description == SingleLine(description) && r.value.body == Trim(body)
        && readmes == old(readmes)[r.value.name := RenderReadme(r.value)]
        && readmes[r.value.name] == "---\nname: " + r.value.name + "\ndescription: " + r.value.description
                                    + "\n---\n\n" + r.value.body + "\n"
      ensures r.Err? ==> readmes == old(readmes)
      ensures faults == old(faults) ==> (r.Ok? <==> Normalized(name, reserved).Ok? && Trim(body) != "")
      ensures Normalized(name, reserved).Err? ==> r == Err(Normalized(name, reserved).error)
      ensures Normalized(name, reserved).Ok? && Trim(body) == "" ==> r == Err(EmptyBody)
    {
      var slug := NormalizeName(name, reserved);
      if slug.Err? { return Err(slug.error); }
      if Trim(body) == "" { return Err(EmptyBody); }
      var command := UserCommand(slug.value, SingleLine(description), Trim(body));
      NormalizedShape(name, reserved);
      SingleLineShape(description);
      TrimIsTrimmed(body);
      var written: bool := *;
      if !written {
        faults := faults + 1;
        return Err(WriteFailed);
      }
      readmes := readmes[command.name := RenderReadme(command)];
      RenderedSpelled(command);
      r := Ok(command);
    }

    method Get(name: string) returns (r: Option<UserCommand>)
      ensures r == (var slug := Normalized(name, reserved);
        if slug.Ok? && slug.value in readmes then Some(ReadCommand(slug.value, readmes[slug.value])) else None)
    {
      var slug := NormalizeName(name, reserved);
      if slug.Err? || slug.value !in readmes { return None; }
      r := Some(ReadCommand(slug.value, readmes[slug.value]));
    }

    /** Whether a command of that name existed. A failed removal may still have
        taken its README. */
    method Delete(name: string) returns (r: Result<bool, CommandError>)
      modifies this
      ensures var slug := Normalized(name, reserved);
        if slug.Err? then r == Err(slug.error) && readmes == old(readmes)
        else if slug.value !in old(readmes) then r == Ok(false) && readmes == old(readmes)
        else if r.Ok? then r == Ok(true) && readmes == old(readmes) - {slug.value}
        else r == Err(RemoveFailed) && (readmes == old(readmes) || readmes == old(readmes) - {slug.value})
      ensures faults == old(faults) ==> r != Err(RemoveFailed)
    {
      var slug := NormalizeName(name, reserved);
      if slug.Err? { return Err(slug.error); }
      if slug.value !in readmes { return Ok(false); }
      var done: bool, reported: bool := *, *;
      if done { readmes := readmes - {slug.value}; }
      if !done || !reported { faults := faults + 1; }
      r := if done && reported then Ok(true) else Err(RemoveFailed);
    }

    /** A saved command is returned exactly as saved, asked for by the name given
        or by its slug, and every other one stays as it was. */
    method SaveThenGet(name: string, description: string, body: string)
      returns (r: Result<UserCommand, CommandError>, byName: Option<UserCommand>, bySlug: Option<UserCommand>)
      modifies this
      ensures r.Ok? ==> byName == bySlug == Some(r.value)
      ensures forall n :: n in old(readmes) && (r.Ok? ==> n != r.value.name) ==>
        n in readmes && readmes[n] == old(readmes)[n]
    {
      hide *;
      r := Save(name, description, body);
      byName, bySlug := None, None;
      if r.Ok? {
        ReadRendered(r.value);
        NormalizedIdempotent(name, reserved);
        byName := Get(name);
        bySlug := Get(r.value.name);
      }
    }
  }
}
