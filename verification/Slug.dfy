// The URL-safe form of a robot's name.
module Slug {
  import opened Text

  // Lower case, as far as it matters here: two characters outside ASCII have a lower-case form in it.
  function LowerRune(c: char): char {
    if c == '\U{212A}' then 'k' else if c == '\U{130}' then 'i' else LowerChar(c)
  }

  predicate IsSlugChar(c: char) {
    'a' <= c <= 'z' || IsDigit(c) || c == '-'
  }

  function Replaced(s: string): string {
    seq(|s|, i requires 0 <= i < |s| => if LowerRune(s[i]) == ' ' then '-' else LowerRune(s[i]))
  }

  function Filtered(s: string): (r: string)
    ensures forall i :: 0 <= i < |r| ==> IsSlugChar(r[i])
  {
    if s == "" then "" else if IsSlugChar(s[0]) then [s[0]] + Filtered(s[1..]) else Filtered(s[1..])
  }

  predicate NoDoubleDash(s: string) {
    forall i :: 0 <= i < |s| - 1 ==> !(s[i] == '-' && s[i + 1] == '-')
  }

  function Collapsed(s: string): string {
    if |s| < 2 then s
    else if s[0] == '-' && s[1] == '-' then Collapsed(s[1..])
    else [s[0]] + Collapsed(s[1..])
  }

  function TrimDashes(s: string): string {
    if s == "" then ""
    else if s[0] == '-' then TrimDashes(s[1..])
    else if s[|s| - 1] == '-' then TrimDashes(s[..|s| - 1])
    else s
  }

  function Slugify(name: string): string {
    var s := TrimDashes(Collapsed(Filtered(Replaced(TrimSpace(name)))));
    if s == "" then "device" else s
  }

  predicate IsSlug(s: string) {
    && s != "" && s[0] != '-' && s[|s| - 1] != '-' && NoDoubleDash(s)
    && forall i :: 0 <= i < |s| ==> IsSlugChar(s[i])
  }

  lemma {:induction false} CollapsedIsSound(s: string)
    requires forall i :: 0 <= i < |s| ==> IsSlugChar(s[i])
    ensures NoDoubleDash(Collapsed(s)) && forall i :: 0 <= i < |Collapsed(s)| ==> IsSlugChar(Collapsed(s)[i])
    ensures s != "" ==> Collapsed(s) != "" && Collapsed(s)[0] == s[0]
  {
    if |s| >= 2 {
      CollapsedIsSound(s[1..]);
    }
  }

  lemma {:induction false} TrimmedIsSlug(s: string)
    requires NoDoubleDash(s) && forall i :: 0 <= i < |s| ==> IsSlugChar(s[i])
    ensures TrimDashes(s) == "" || IsSlug(TrimDashes(s))
  {
    if s != "" {
      if s[0] == '-' {
        assert NoDoubleDash(s[1..]) by { assert forall i :: 0 <= i < |s| - 1 ==> s[1..][i] == s[i + 1]; }
        TrimmedIsSlug(s[1..]);
      } else if s[|s| - 1] == '-' {
        TrimmedIsSlug(s[..|s| - 1]);
      }
    }
  }

  lemma {:induction false} SlugIsKept(s: string)
    requires NoDoubleDash(s) && forall i :: 0 <= i < |s| ==> IsSlugChar(s[i])
    ensures Filtered(s) == s && Collapsed(s) == s
  {
    if s != "" {
      assert NoDoubleDash(s[1..]) by { assert forall i :: 0 <= i < |s| - 1 ==> s[1..][i] == s[i + 1]; }
      SlugIsKept(s[1..]);
    }
  }

  lemma NothingToTrim(s: string)
    requires s != "" && !IsSpace(s[0]) && !IsSpace(s[|s| - 1])
    ensures TrimSpace(s) == s
  {
  }

  lemma SlugifyIsSlug(name: string)
    ensures IsSlug(Slugify(name))
  {
    hide Collapsed, Filtered, Replaced, TrimSpace, TrimDashes, NoDoubleDash, IsSlugChar;
    var filtered := Filtered(Replaced(TrimSpace(name)));
    CollapsedIsSound(filtered);
    TrimmedIsSlug(Collapsed(filtered));
    DeviceIsSlug();
  }

  lemma DeviceIsSlug()
    ensures IsSlug("device")
  {
  }

  lemma SlugIsLeft(name: string)
    requires IsSlug(name)
    ensures Slugify(name) == name
  {
    hide Collapsed, Filtered, NoDoubleDash, TrimSpace;
    NothingToTrim(name);
    assert Replaced(name) == name;
    SlugIsKept(name);
  }

  // The result is always a slug, and a text is left alone exactly when it is one.
  lemma SlugifyFixesSlugs(name: string)
    ensures IsSlug(Slugify(name))
    ensures IsSlug(name) <==> Slugify(name) == name
  {
    hide Slugify, IsSlug;
    SlugifyIsSlug(name);
    if IsSlug(name) {
      SlugIsLeft(name);
    }
  }

  function Letters(s: string): string {
    if s == "" then ""
    else if IsSlugChar(s[0]) && s[0] != '-' then [s[0]] + Letters(s[1..])
    else Letters(s[1..])
  }

  lemma {:induction false} LettersConcat(a: string, b: string)
    ensures Letters(a + b) == Letters(a) + Letters(b)
  {
    if a == "" {
      assert a + b == b;
    } else {
      LettersConcat(a[1..], b);
      assert (a + b)[1..] == a[1..] + b;
    }
  }

  lemma {:induction false} FilteredKeepsLetters(s: string)
    ensures Letters(Filtered(s)) == Letters(s)
  {
    if s != "" {
      FilteredKeepsLetters(s[1..]);
      if IsSlugChar(s[0]) {
        assert Filtered(s)[1..] == Filtered(s[1..]);
      }
    }
  }

  lemma {:induction false} CollapsedKeepsLetters(s: string)
    ensures Letters(Collapsed(s)) == Letters(s)
  {
    if |s| >= 2 {
      CollapsedKeepsLetters(s[1..]);
      if !(s[0] == '-' && s[1] == '-') {
        assert Collapsed(s)[1..] == Collapsed(s[1..]);
      }
    }
  }

  lemma {:induction false} TrimDashesKeepsLetters(s: string)
    ensures Letters(TrimDashes(s)) == Letters(s)
  {
    if s != "" {
      if s[0] == '-' {
        TrimDashesKeepsLetters(s[1..]);
      } else if s[|s| - 1] == '-' {
        TrimDashesKeepsLetters(s[..|s| - 1]);
        assert s == s[..|s| - 1] + "-";
        LettersConcat(s[..|s| - 1], "-");
      }
    }
  }

  // The slug spells the letters and digits of the name, in order; without any it is the same for all names.
  lemma SlugifyKeepsLetters(name: string)
    ensures var letters := Letters(Replaced(TrimSpace(name)));
            if letters == "" then Slugify(name) == "device" else Letters(Slugify(name)) == letters
  {
    var replaced := Replaced(TrimSpace(name));
    FilteredKeepsLetters(replaced);
    CollapsedKeepsLetters(Filtered(replaced));
    TrimDashesKeepsLetters(Collapsed(Filtered(replaced)));
    CollapsedIsSound(Filtered(replaced));
    TrimmedIsSlug(Collapsed(Filtered(replaced)));
    var s := TrimDashes(Collapsed(Filtered(replaced)));
    assert s != "" ==> Letters(s) != "";
  }
}
