// What a slug is, in one pass over the name: its words, lower case and joined by single dashes.
module SlugWords {
  import opened Text
  import opened Slug

  // The words of a name. Spaces and dashes come between words, anything else that is not a letter or a digit is
  // left out. `gap` says that one came since the last word, `started` that there was a word.
  function Words(s: string, gap: bool, started: bool): string {
    if s == "" then ""
    else
      var c := LowerRune(s[0]);
      if 'a' <= c <= 'z' || '0' <= c <= '9' then
        (if gap && started then "-" else "") + [c] + Words(s[1..], false, true)
      else Words(s[1..], gap || c == ' ' || c == '-', started)
  }

  // The same for a text of word characters and dashes.
  function Joined(s: string, gap: bool, started: bool): string {
    if s == "" then ""
    else if s[0] == '-' then Joined(s[1..], true, started)
    else (if gap && started then "-" else "") + [s[0]] + Joined(s[1..], false, true)
  }

  lemma {:induction false} WordsAreJoined(s: string, gap: bool, started: bool)
    ensures Words(s, gap, started) == Joined(Filtered(Replaced(s)), gap, started)
  {
    if s != "" {
      var c := LowerRune(s[0]);
      var r := if c == ' ' then '-' else c;
      assert Replaced(s)[0] == r && Replaced(s)[1..] == Replaced(s[1..]);
      hide LowerRune, Replaced;
      if IsSlugChar(r) {
        assert Filtered(Replaced(s))[1..] == Filtered(Replaced(s[1..]));
      }
      if 'a' <= c <= 'z' || '0' <= c <= '9' {
        WordsAreJoined(s[1..], false, true);
      } else {
        WordsAreJoined(s[1..], gap || c == ' ' || c == '-', started);
      }
    }
  }

  function Tail(s: string): string {
    if s != "" && s[|s| - 1] == '-' then "-" else ""
  }

  // Collapsing dashes joins the words, but for dashes at the ends.
  lemma {:induction false} CollapsedIsJoined(s: string)
    ensures Collapsed(s) == Joined(s, false, true) + Tail(s)
  {
    if |s| >= 2 {
      CollapsedIsJoined(s[1..]);
      assert Tail(s) == Tail(s[1..]);
      hide Tail;
      JoinedSteps(s);
    } else if |s| == 1 {
      assert Joined(s[1..], true, true) == "" && Joined(s[1..], false, true) == "";
    }
  }

  lemma JoinedSteps(s: string)
    requires |s| >= 2
    ensures Joined(s, false, true) ==
            if s[0] != '-' then [s[0]] + Joined(s[1..], false, true)
            else if s[1] == '-' then Joined(s[1..], false, true)
            else "-" + Joined(s[1..], false, true)
  {
  }

  // A dash in front is all that a word before would add.
  lemma {:induction false} StartedAddsDash(s: string, gap: bool)
    ensures Joined(s, gap, true) == Joined(s, gap, false) || Joined(s, gap, true) == "-" + Joined(s, gap, false)
  {
    if s != "" && s[0] == '-' {
      StartedAddsDash(s[1..], true);
    }
  }

  // Joined words start and end with a word.
  lemma {:induction false} JoinedEnds(s: string, gap: bool, started: bool)
    ensures var w := Joined(s, gap, started);
            w != "" ==> w[|w| - 1] != '-' && (!started ==> w[0] != '-')
  {
    if s != "" {
      if s[0] == '-' {
        JoinedEnds(s[1..], true, started);
      } else {
        JoinedEnds(s[1..], false, true);
      }
    }
  }

  lemma TrimAround(lead: string, words: string, tail: string)
    requires (lead == "" || lead == "-") && (tail == "" || tail == "-")
    requires words != "" ==> words[0] != '-' && words[|words| - 1] != '-'
    ensures TrimDashes(lead + words + tail) == words
  {
    TrimTail(words, tail);
    if lead == "-" {
      assert (lead + words + tail)[1..] == words + tail;
    } else {
      assert lead + words + tail == words + tail;
    }
  }

  lemma TrimTail(words: string, tail: string)
    requires tail == "" || tail == "-"
    requires words != "" ==> words[0] != '-' && words[|words| - 1] != '-'
    ensures TrimDashes(words + tail) == words
  {
    var s := words + tail;
    if tail == "" {
      assert s == words;
    } else if words == "" {
      assert s == "-" && s[1..] == "";
    } else {
      assert s[0] == words[0] && s[..|s| - 1] == words;
    }
  }

  lemma {:induction false} GapBeforeFirst(s: string)
    ensures Words(s, true, false) == Words(s, false, false)
  {
    if s != "" {
      var c := LowerRune(s[0]);
      if !('a' <= c <= 'z' || '0' <= c <= '9') && !(c == ' ' || c == '-') {
        GapBeforeFirst(s[1..]);
      }
    }
  }

  lemma SpaceIsNoWord(c: char)
    requires IsSpace(c)
    ensures !('a' <= LowerRune(c) <= 'z' || '0' <= LowerRune(c) <= '9')
  {
  }

  // Space at the ends of a name makes no difference.
  lemma {:induction false} SpaceInFront(a: string, s: string)
    requires forall c :: c in a ==> IsSpace(c)
    ensures Words(a + s, false, false) == Words(s, false, false)
  {
    hide IsSpace, LowerRune;
    if a == "" {
      assert a + s == s;
    } else {
      assert a[0] in a && (a + s)[1..] == a[1..] + s;
      SpaceIsNoWord(a[0]);
      GapBeforeFirst(a[1..] + s);
      SpaceInFront(a[1..], s);
    }
  }

  lemma {:induction false} SpaceBehind(s: string, b: string, gap: bool, started: bool)
    requires forall c :: c in b ==> IsSpace(c)
    ensures Words(s + b, gap, started) == Words(s, gap, started)
    decreases |s| + |b|
  {
    hide IsSpace, LowerRune;
    if s != "" {
      assert (s + b)[1..] == s[1..] + b;
      var c := LowerRune(s[0]);
      if 'a' <= c <= 'z' || '0' <= c <= '9' {
        SpaceBehind(s[1..], b, false, true);
      } else {
        SpaceBehind(s[1..], b, gap || c == ' ' || c == '-', started);
      }
    } else if b != "" {
      assert s + b == b && b[0] in b && s + b[1..] == b[1..];
      SpaceIsNoWord(b[0]);
      var c := LowerRune(b[0]);
      SpaceBehind(s, b[1..], gap || c == ' ' || c == '-', started);
    } else {
      assert s + b == s;
    }
  }

  lemma TrimmedIsJoined(s: string)
    ensures TrimDashes(Collapsed(s)) == Joined(s, false, false)
  {
    hide Joined, TrimDashes, Collapsed;
    var words := Joined(s, false, false);
    CollapsedIsJoined(s);
    StartedAddsDash(s, false);
    JoinedEnds(s, false, false);
    TrimAround("", words, Tail(s));
    TrimAround("-", words, Tail(s));
    assert "" + words + Tail(s) == words + Tail(s);
  }

  lemma TrimKeepsWords(name: string)
    ensures Words(TrimSpace(name), false, false) == Words(name, false, false)
  {
    hide Words, TrimSpace, IsSpace;
    var a, b := TrimSpaceTells(name);
    SpaceInFront(a, TrimSpace(name) + b);
    assert name == a + (TrimSpace(name) + b);
    SpaceBehind(TrimSpace(name), b, false, false);
  }

  // The slug of a name is its words joined by dashes; a name without any is called "device".
  lemma SlugifyJoinsWords(name: string)
    ensures Slugify(name) == if Words(name, false, false) == "" then "device" else Words(name, false, false)
  {
    hide Words, Joined, Filtered, Replaced, TrimSpace, TrimDashes, Collapsed;
    TrimKeepsWords(name);
    WordsAreJoined(TrimSpace(name), false, false);
    TrimmedIsJoined(Filtered(Replaced(TrimSpace(name))));
  }
}
