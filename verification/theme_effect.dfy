/**
  The effect that applies the theme to the document's root element: remove the
  classes `light` and `dark`, then add the class the theme resolves to, where
  `system` follows the operating system's dark-mode preference.
  The class list is a `DOMTokenList`, an ordered set of tokens (`IsTokenSet`):
  `remove` drops a token, `add` appends a token that is not yet present and
  throws, before changing anything, on an empty token or one containing ASCII
  whitespace. The operations below keep a list a set; on a list with repeated
  entries (which the DOM never holds) they still behave sensibly, which is why
  their contracts are stated with multiplicities.
 */
module ThemeEffect {
  import opened JsCore
  import opened ThemeStore

  /** The exceptions `DOMTokenList.add` can throw. */
  datatype DomError = SyntaxError | InvalidCharacterError

  /** The class list after an update, and the exception thrown on the way, if any. */
  datatype Applied = Applied(classes: seq<string>, thrown: Option<DomError>)

  /** The classes the effect manages. */
  const ColorSchemes: set<string> := {Light, Dark}

  predicate IsAsciiWhitespace(c: char) {
    c == '\t' || c == '\n' || c == '\U{000C}' || c == '\r' || c == ' '
  }

  predicate HasWhitespace(token: string) {
    exists i :: 0 <= i < |token| && IsAsciiWhitespace(token[i])
  }

  /** No token occurs twice: the shape of every `DOMTokenList`. */
  predicate IsTokenSet(classes: seq<string>) {
    forall i, j :: 0 <= i < j < |classes| ==> classes[i] != classes[j]
  }

  /** A token `DOMTokenList.add` accepts. */
  predicate ValidToken(token: string) {
    token != "" && !HasWhitespace(token)
  }

  /** `classList.remove(...tokens)`: the tokens go, the rest keep their order. */
  function RemoveTokens(classes: seq<string>, tokens: set<string>): (r: seq<string>)
    ensures forall c :: c in r <==> c in classes && c !in tokens
    ensures forall c :: c !in tokens ==> multiset(r)[c] == multiset(classes)[c]
    ensures |r| <= |classes|
    ensures IsTokenSet(classes) ==> IsTokenSet(r)
  {
    if |classes| == 0 then []
    else
      var rest := RemoveTokens(classes[1..], tokens);
      assert classes == [classes[0]] + classes[1..];
      if classes[0] in tokens then rest else [classes[0]] + rest
  }

  /** `classList.add(token)`: validates the token, then appends it unless already present. */
  function AddToken(classes: seq<string>, token: string): (r: Applied)
    ensures r.thrown.None? <==> ValidToken(token)
    ensures r.thrown == Some(SyntaxError) <==> token == ""
    ensures r.thrown.None? ==> token in r.classes && multiset(r.classes)[token] == if token in classes then multiset(classes)[token] else 1
    ensures forall c :: c != token ==> multiset(r.classes)[c] == multiset(classes)[c]
    ensures classes <= r.classes
    ensures r.thrown.Some? ==> r.classes == classes
    ensures IsTokenSet(classes) ==> IsTokenSet(r.classes)
  {
    if token == "" then Applied(classes, Some(SyntaxError))
    else if HasWhitespace(token) then Applied(classes, Some(InvalidCharacterError))
    else if token in classes then Applied(classes, None)
    else Applied(classes + [token], None)
  }

  /** The class a theme stands for: `system` follows the preference, anything else is used as is. */
  function ResolveTheme(theme: string, prefersDark: bool): (r: string)
    ensures theme == System ==> (r == Dark <==> prefersDark) && (r == Light <==> !prefersDark)
    ensures theme != System ==> r == theme
    ensures theme in Modes ==> r in ColorSchemes
  {
    if theme == System then (if prefersDark then Dark else Light) else theme
  }

  /** The effect body: remove both scheme classes, then add the resolved one. */
  function ApplyTheme(classes: seq<string>, theme: string, prefersDark: bool): (r: Applied)
    ensures RemoveTokens(classes, ColorSchemes) <= r.classes
    ensures r.thrown.Some? ==> r.classes == RemoveTokens(classes, ColorSchemes)
    ensures IsTokenSet(classes) ==> IsTokenSet(r.classes)
  {
    AddToken(RemoveTokens(classes, ColorSchemes), ResolveTheme(theme, prefersDark))
  }

  lemma SchemesAreValidTokens()
    ensures ValidToken(Light) && ValidToken(Dark)
  {
    forall i | 0 <= i < |Light| ensures !IsAsciiWhitespace(Light[i]) {
    }
    forall i | 0 <= i < |Dark| ensures !IsAsciiWhitespace(Dark[i]) {
    }
  }

  lemma {:induction false} RemoveTokensKeepsClean(classes: seq<string>, tokens: set<string>)
    requires forall i :: 0 <= i < |classes| ==> classes[i] !in tokens
    ensures RemoveTokens(classes, tokens) == classes
  {
    if |classes| > 0 {
      RemoveTokensKeepsClean(classes[1..], tokens);
      assert classes == [classes[0]] + classes[1..];
    }
  }

  lemma {:induction false} RemoveTokensAppend(classes: seq<string>, c: string, tokens: set<string>)
    ensures RemoveTokens(classes + [c], tokens) ==
            RemoveTokens(classes, tokens) + (if c in tokens then [] else [c])
  {
    var xs := classes + [c];
    if |classes| == 0 {
      assert xs == [c];
      assert RemoveTokens(xs[1..], tokens) == [];
    } else {
      assert xs[0] == classes[0];
      assert xs[1..] == classes[1..] + [c];
      RemoveTokensAppend(classes[1..], c, tokens);
    }
  }

  /** With one of the three modes, the root ends up with exactly one of `light` and `dark`,
      `dark` precisely when the theme asks for it, and no exception. */
  lemma ExactlyOneScheme(classes: seq<string>, theme: string, prefersDark: bool)
    requires theme in Modes
    ensures var r := ApplyTheme(classes, theme, prefersDark);
      && r.thrown.None?
      && multiset(r.classes)[Light] + multiset(r.classes)[Dark] == 1
      && (Dark in r.classes <==> theme == Dark || (theme == System && prefersDark))
  {
    var removed := RemoveTokens(classes, ColorSchemes);
    var token := ResolveTheme(theme, prefersDark);
    SchemesAreValidTokens();
    assert Light !in removed && Dark !in removed;
    var r := AddToken(removed, token);
    assert r.classes == removed + [token];
    assert multiset(r.classes) == multiset(removed) + multiset{token};
  }

  /** Every class other than `light` and `dark` keeps its occurrences and its order. */
  lemma OtherClassesUntouched(classes: seq<string>, theme: string, prefersDark: bool)
    requires theme in Modes
    ensures RemoveTokens(ApplyTheme(classes, theme, prefersDark).classes, ColorSchemes) ==
            RemoveTokens(classes, ColorSchemes)
  {
    var removed := RemoveTokens(classes, ColorSchemes);
    var token := ResolveTheme(theme, prefersDark);
    RemoveTokensKeepsClean(removed, ColorSchemes);
    if token !in removed {
      RemoveTokensAppend(removed, token, ColorSchemes);
    }
  }

  /** Running the effect again with the same theme and preference changes nothing,
      for any stored theme string, including ones `add` rejects. */
  lemma ApplyThemeIdempotent(classes: seq<string>, theme: string, prefersDark: bool)
    ensures var once := ApplyTheme(classes, theme, prefersDark);
      ApplyTheme(once.classes, theme, prefersDark) == once
  {
    var removed := RemoveTokens(classes, ColorSchemes);
    var token := ResolveTheme(theme, prefersDark);
    var once := AddToken(removed, token);
    RemoveTokensKeepsClean(removed, ColorSchemes);
    if once.classes != removed {
      assert once.classes == removed + [token];
      RemoveTokensAppend(removed, token, ColorSchemes);
      if token in ColorSchemes {
        assert RemoveTokens(once.classes, ColorSchemes) == removed;
      } else {
        assert RemoveTokens(once.classes, ColorSchemes) == once.classes;
        assert token in once.classes;
      }
    }
  }
}
