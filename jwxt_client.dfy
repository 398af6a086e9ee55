/**
  The scraping client of the timetable portal (`src/neuq-jwxt-client.ts`):
  extracting the login salt from the login page's scripts, the salted-hash login
  form and its success test, serialising a search request into form fields, and
  reading classroom names out of the result table.

  The network is not modelled: pages and responses arrive already parsed (script
  texts, rows of raw cell texts), and what the server answers to a posted form is
  a function parameter. SHA1 from crypto-js is a function parameter too.
  Every exchange with the portal is recorded as an event in the client's trace.
*/
module JwxtClient {
  import opened Wrappers
  import opened JsText
  import opened Types

  // ---------------------------------------------------------------------------
  // The salt pattern  /CryptoJS\.SHA1\('([^']+)-' \+ form\[.*?password.*?\]\.value\)/
  // ---------------------------------------------------------------------------

  const SaltPrefix := "CryptoJS.SHA1('"
  const FormOpen := " + form["
  const PasswordWord := "password"
  const ValueSuffix := "].value)"

  predicate NoQuote(s: string)
  {
    forall i :: 0 <= i < |s| ==> s[i] != '\''
  }

  /** `rest` matches `.*?password.*?\]\.value\)` from its start (`.` never matches a line terminator). */
  ghost predicate TailMatches(rest: string)
  {
    exists i, j ::
      && 0 <= i && i + |PasswordWord| <= j
      && OccursAt(rest, PasswordWord, i) && OccursAt(rest, ValueSuffix, j)
      && NoLineTerminator(rest[..i]) && NoLineTerminator(rest[i + |PasswordWord|..j])
  }

  /**
    The whole pattern matches `text` at position `p`, with `salt` as its capture
    group: `CryptoJS.SHA1('`, the group, `-'`, ` + form[`, then the lazy tail.
  */
  ghost predicate MatchesAt(text: string, p: int, salt: string)
  {
    var q := p + |SaltPrefix|;
    var d := q + |salt|;
    && salt != [] && NoQuote(salt)
    && OccursAt(text, SaltPrefix, p)
    && OccursAt(text, salt, q)
    && d + 1 < |text| && text[d] == '-' && text[d + 1] == '\''
    && OccursAt(text, FormOpen, d + 2)
    && TailMatches(text[d + 2 + |FormOpen|..])
  }

  /** `salt` is the capture group of the leftmost match in `text`. */
  ghost predicate LeftmostMatch(text: string, p: int, salt: string)
  {
    MatchesAt(text, p, salt) && forall q, s :: 0 <= q < p ==> !MatchesAt(text, q, s)
  }

  /** Decides `TailMatches` on the first line of `rest`. */
  function TailFound(rest: string): bool
  {
    var line := rest[..LineLength(rest)];
    match IndexOf(line, PasswordWord, 0)
    case None => false
    case Some(i) => IndexOf(line, ValueSuffix, i + |PasswordWord|).Some?
  }

  lemma OccursInPrefix(s: string, n: nat, sub: string, k: int)
    requires n <= |s|
    ensures OccursAt(s[..n], sub, k) <==> OccursAt(s, sub, k) && k + |sub| <= n
  {
    if OccursAt(s, sub, k) && k + |sub| <= n {
      assert s[..n][k..k + |sub|] == s[k..k + |sub|];
    }
  }

  lemma NoLineTerminatorSlice(s: string, a: nat, b: nat, c: nat, d: nat)
    requires a <= c <= d <= b <= |s| && NoLineTerminator(s[a..b])
    ensures NoLineTerminator(s[c..d])
  {
    forall k | 0 <= k < d - c ensures !IsLineTerminator(s[c..d][k]) {
      assert s[c..d][k] == s[a..b][k + c - a];
    }
  }

  lemma LiteralsHaveNoLineTerminator()
    ensures NoLineTerminator(PasswordWord) && NoLineTerminator(ValueSuffix)
  {
  }

  /** The first line terminator of `rest` cannot come before the end of a match. */
  lemma LineCoversMatch(rest: string, i: nat, j: nat)
    requires i + |PasswordWord| <= j
    requires OccursAt(rest, PasswordWord, i) && OccursAt(rest, ValueSuffix, j)
    requires NoLineTerminator(rest[..i]) && NoLineTerminator(rest[i + |PasswordWord|..j])
    ensures j + |ValueSuffix| <= LineLength(rest)
  {
    LiteralsHaveNoLineTerminator();
    forall k | 0 <= k < j + |ValueSuffix| ensures !IsLineTerminator(rest[k]) {
      if k < i {
        assert rest[k] == rest[..i][k];
      } else if k < i + |PasswordWord| {
        assert rest[k] == PasswordWord[k - i];
      } else if k < j {
        assert rest[k] == rest[i + |PasswordWord|..j][k - i - |PasswordWord|];
      } else {
        assert rest[k] == ValueSuffix[k - j];
      }
    }
  }

  /** `TailFound` decides the lazy tail of the pattern. */
  lemma TailFoundIff(rest: string)
    ensures TailFound(rest) <==> TailMatches(rest)
  {
    var n := LineLength(rest);
    var line := rest[..n];
    if TailFound(rest) {
      var i := IndexOf(line, PasswordWord, 0).value;
      var j := IndexOf(line, ValueSuffix, i + |PasswordWord|).value;
      OccursInPrefix(rest, n, PasswordWord, i);
      OccursInPrefix(rest, n, ValueSuffix, j);
      NoLineTerminatorSlice(rest, 0, n, 0, i);
      NoLineTerminatorSlice(rest, 0, n, i + |PasswordWord|, j);
      assert OccursAt(rest, PasswordWord, i) && OccursAt(rest, ValueSuffix, j);
    }
    if TailMatches(rest) {
      var i, j :| && 0 <= i && i + |PasswordWord| <= j
        && OccursAt(rest, PasswordWord, i) && OccursAt(rest, ValueSuffix, j)
        && NoLineTerminator(rest[..i]) && NoLineTerminator(rest[i + |PasswordWord|..j]);
      LineCoversMatch(rest, i, j);
      OccursInPrefix(rest, n, PasswordWord, i);
      OccursInPrefix(rest, n, ValueSuffix, j);
      var i0 := IndexOf(line, PasswordWord, 0).value;
      assert i0 <= i;
      assert IndexOf(line, ValueSuffix, i0 + |PasswordWord|).Some?;
    }
  }

  /**
    The capture group of a match at `p`, if the pattern matches there. The group
    `[^']+` followed by `-'` must end just before the first quote after `SHA1('`,
    so at most one group is possible at each position.
  */
  function SaltAt(text: string, p: nat): Option<string>
  {
    var q := p + |SaltPrefix|;
    if !OccursAt(text, SaltPrefix, p) then None
    else
      match FindChar(text, '\'', q)
      case None => None
      case Some(e) =>
        if e < q + 2 || text[e - 1] != '-' then None
        else if !OccursAt(text, FormOpen, e + 1) then None
        else if TailFound(text[e + 1 + |FormOpen|..]) then Some(text[q..e - 1])
        else None
  }

  lemma SaltAtSound(text: string, p: nat, salt: string)
    requires SaltAt(text, p) == Some(salt)
    ensures MatchesAt(text, p, salt)
  {
    var q := p + |SaltPrefix|;
    var e := FindChar(text, '\'', q).value;
    assert salt == text[q..e - 1];
    assert NoQuote(salt) by {
      forall k | 0 <= k < |salt| ensures salt[k] != '\'' {
        assert salt[k] == text[q + k];
      }
    }
    TailFoundIff(text[e + 1 + |FormOpen|..]);
  }

  lemma SaltAtComplete(text: string, p: nat, salt: string)
    requires MatchesAt(text, p, salt)
    ensures SaltAt(text, p) == Some(salt)
  {
    var q := p + |SaltPrefix|;
    var e := q + |salt| + 1;
    FirstQuoteAfterSalt(text, q, salt);
    var rest := text[e + 1 + |FormOpen|..];
    assert TailMatches(rest);
    TailFoundIff(rest);
    SaltAtWhen(text, p, e);
    assert text[q..e - 1] == salt;
  }

  /** The first quote after a quote-free salt followed by `-'` is that quote. */
  lemma FirstQuoteAfterSalt(text: string, q: nat, salt: string)
    requires NoQuote(salt) && OccursAt(text, salt, q)
    requires q + |salt| + 1 < |text| && text[q + |salt|] == '-' && text[q + |salt| + 1] == '\''
    ensures FindChar(text, '\'', q) == Some(q + |salt| + 1)
  {
    var e := q + |salt| + 1;
    forall k | q <= k < e ensures text[k] != '\'' {
      if k < e - 1 {
        assert text[k] == text[q..q + |salt|][k - q];
      }
    }
    FindCharFirst(text, '\'', q, e);
  }

  /** The branch of `SaltAt` that yields a capture group. */
  lemma SaltAtWhen(text: string, p: nat, e: nat)
    requires OccursAt(text, SaltPrefix, p)
    requires FindChar(text, '\'', p + |SaltPrefix|) == Some(e)
    requires e >= p + |SaltPrefix| + 2 && text[e - 1] == '-'
    requires OccursAt(text, FormOpen, e + 1) && TailFound(text[e + 1 + |FormOpen|..])
    ensures SaltAt(text, p) == Some(text[p + |SaltPrefix|..e - 1])
  {
  }

  /** `SaltAt` finds exactly the matches of the pattern at `p`. */
  lemma SaltAtIff(text: string, p: nat, salt: string)
    ensures SaltAt(text, p) == Some(salt) <==> MatchesAt(text, p, salt)
  {
    if SaltAt(text, p) == Some(salt) {
      SaltAtSound(text, p, salt);
    }
    if MatchesAt(text, p, salt) {
      SaltAtComplete(text, p, salt);
    }
  }

  /** The regular expression's search: the capture group of the leftmost match at or after `p`. */
  function SearchFrom(text: string, p: nat): Option<string>
    requires p <= |text|
    decreases |text| - p
  {
    match SaltAt(text, p)
    case Some(s) => Some(s)
    case None => if p == |text| then None else SearchFrom(text, p + 1)
  }

  /** `text.match(pattern)`, reduced to its capture group. */
  function MatchSalt(text: string): (r: Option<string>)
    ensures r.Some? ==> r.value != [] && NoQuote(r.value)
  {
    SearchFromShape(text, 0);
    SearchFrom(text, 0)
  }

  /** Whatever the search captures is a non-empty run of non-quote characters. */
  lemma {:induction false} SearchFromShape(text: string, p: nat)
    requires p <= |text|
    ensures SearchFrom(text, p).Some? ==> SearchFrom(text, p).value != [] && NoQuote(SearchFrom(text, p).value)
    decreases |text| - p
  {
    match SaltAt(text, p)
    case Some(salt) =>
      SaltAtSound(text, p, salt);
    case None =>
      if p < |text| {
        SearchFromShape(text, p + 1);
      }
  }

  lemma {:induction false} SearchFromSpec(text: string, p: nat)
    requires p <= |text|
    ensures SearchFrom(text, p).Some? ==>
      exists k :: p <= k <= |text| && MatchesAt(text, k, SearchFrom(text, p).value)
        && forall q, s :: p <= q < k ==> !MatchesAt(text, q, s)
    ensures SearchFrom(text, p).None? ==> forall q, s :: p <= q <= |text| ==> !MatchesAt(text, q, s)
    decreases |text| - p
  {
    match SaltAt(text, p)
    case Some(salt) =>
      SaltAtSound(text, p, salt);
      assert MatchesAt(text, p, SearchFrom(text, p).value);
    case None =>
      NoSaltNoMatch(text, p);
      if p < |text| {
        SearchFromSpec(text, p + 1);
        if SearchFrom(text, p).Some? {
          var k :| p + 1 <= k <= |text| && MatchesAt(text, k, SearchFrom(text, p).value)
            && forall q, s :: p + 1 <= q < k ==> !MatchesAt(text, q, s);
          assert forall q, s :: p <= q < k ==> !MatchesAt(text, q, s);
        }
      }
  }

  lemma NoSaltNoMatch(text: string, p: nat)
    requires SaltAt(text, p).None?
    ensures forall s :: !MatchesAt(text, p, s)
  {
    forall s ensures !MatchesAt(text, p, s) {
      if MatchesAt(text, p, s) {
        SaltAtComplete(text, p, s);
      }
    }
  }

  /**
    The salt is the capture group of the leftmost match, and there is none exactly
    when the pattern matches nowhere in the text.
  */
  lemma MatchSaltSpec(text: string)
    ensures MatchSalt(text).Some? ==> exists p :: LeftmostMatch(text, p, MatchSalt(text).value)
    ensures MatchSalt(text).None? <==> forall p, s :: !MatchesAt(text, p, s)
  {
    SearchFromSpec(text, 0);
    if MatchSalt(text).Some? {
      var k :| 0 <= k <= |text| && MatchesAt(text, k, MatchSalt(text).value)
        && forall q, s :: 0 <= q < k ==> !MatchesAt(text, q, s);
      assert LeftmostMatch(text, k, MatchSalt(text).value);
    }
  }

  /** A matched salt is non-empty, has no quote, and is followed in the text by `-'`. */
  lemma MatchedSaltShape(text: string)
    requires MatchSalt(text).Some?
    ensures var salt := MatchSalt(text).value;
      && salt != [] && NoQuote(salt)
      && exists k :: (OccursAt(text, salt, k) && k + |salt| + 1 < |text|
        && text[k + |salt|] == '-' && text[k + |salt| + 1] == '\'')
  {
    var salt := MatchSalt(text).value;
    MatchSaltSpec(text);
    var p :| LeftmostMatch(text, p, salt);
    var k := p + |SaltPrefix|;
    assert OccursAt(text, salt, k);
  }

  /** At most one capture group is possible at any position. */
  lemma MatchIsUnique(text: string, p: nat, s1: string, s2: string)
    requires MatchesAt(text, p, s1) && MatchesAt(text, p, s2)
    ensures s1 == s2
  {
    SaltAtIff(text, p, s1);
    SaltAtIff(text, p, s2);
  }

  /** Every match contains the `[` of `form[`. */
  lemma MatchHasBracket(text: string, p: nat, salt: string)
    ensures MatchesAt(text, p, salt) ==> exists i :: 0 <= i < |text| && text[i] == '['
  {
    if MatchesAt(text, p, salt) {
      var f := p + |SaltPrefix| + |salt| + 2;
      assert text[f + |FormOpen| - 1] == text[f..f + |FormOpen|][|FormOpen| - 1];
    }
  }

  predicate NoBracket(s: string)
  {
    forall i :: 0 <= i < |s| ==> s[i] != '['
  }

  lemma NoBracketConcat(a: string, b: string)
    requires NoBracket(a) && NoBracket(b)
    ensures NoBracket(a + b)
  {
    forall i | 0 <= i < |a + b| ensures (a + b)[i] != '[' {
      if i >= |a| {
        assert (a + b)[i] == b[i - |a|];
      }
    }
  }

  /** A script that writes the field as `form.password`, without `form[`, never matches. */
  lemma NoMatchWithoutBracket(text: string)
    requires NoBracket(text)
    ensures MatchSalt(text).None?
  {
    forall p: nat, salt: string ensures !MatchesAt(text, p, salt) {
      MatchHasBracket(text, p, salt);
    }
    MatchSaltSpec(text);
  }

  // ---------------------------------------------------------------------------
  // getSaltFromLoginPage
  // ---------------------------------------------------------------------------

  /** The salt of the first script (in document order) that matches the pattern. */
  function FirstSalt(scripts: seq<string>): (r: Option<string>)
    ensures r.Some? ==> exists k :: (0 <= k < |scripts| && MatchSalt(scripts[k]) == r
      && forall j :: 0 <= j < k ==> MatchSalt(scripts[j]).None?)
    ensures r.None? <==> forall k :: 0 <= k < |scripts| ==> MatchSalt(scripts[k]).None?
  {
    if scripts == [] then None
    else if MatchSalt(scripts[0]).Some? then MatchSalt(scripts[0])
    else
      var r := FirstSalt(scripts[1..]);
      assert forall k :: 1 <= k < |scripts| ==> scripts[k] == scripts[1..][k - 1];
      assert r.Some? ==> exists k :: (1 <= k < |scripts| && MatchSalt(scripts[k]) == r
        && forall j :: 0 <= j < k ==> MatchSalt(scripts[j]).None?);
      r
  }

  /**
    The loop over the login page's scripts: the salt of the first script that
    matches, later scripts being ignored; `None` (the source's `undefined`) when
    no script matches.
  */
  method SaltFromScripts(scripts: seq<string>) returns (salt: Option<string>)
    ensures salt.Some? ==>
      exists k :: 0 <= k < |scripts| && MatchSalt(scripts[k]) == salt
        && forall j :: 0 <= j < k ==> MatchSalt(scripts[j]).None?
    ensures salt.None? <==> forall k :: 0 <= k < |scripts| ==> MatchSalt(scripts[k]).None?
    ensures salt == FirstSalt(scripts)
  {
    salt := None;
    var i := 0;
    while i < |scripts|
      invariant 0 <= i <= |scripts|
      invariant forall j :: 0 <= j < i ==> MatchSalt(scripts[j]).None?
      invariant FirstSalt(scripts) == FirstSalt(scripts[i..])
    {
      var found := MatchSalt(scripts[i]);
      if found.Some? {
        salt := found;
        break;
      }
      assert scripts[i..][1..] == scripts[i + 1..];
      i := i + 1;
    }
  }

  // ---------------------------------------------------------------------------
  // login
  // ---------------------------------------------------------------------------

  /** The string `${salt}-${password}`; an undefined salt prints as `undefined`. */
  function HashInput(salt: Option<string>, password: string): (r: string)
    ensures |r| > |password| && r[|r| - |password| - 1..] == "-" + password
    ensures salt.Some? ==> salt.value <= r
    ensures salt.None? ==> "undefined" <= r
  {
    (match salt
     case Some(s) => s
     case None => "undefined") + "-" + password
  }

  /** The login form: `username` unchanged, `password` the SHA1 of the salted password. */
  function LoginForm(username: string, password: string, salt: Option<string>, sha1: string -> string): (form: Form)
    ensures |form| == 2 && form[0] == ("username", username)
    ensures form[1].0 == "password" && form[1].1 == sha1(HashInput(salt, password))
  {
    [("username", username), ("password", sha1(HashInput(salt, password)))]
  }

  const HomeMarker := "homeExt.action"

  /** Login succeeded when the final URL of the redirect chain contains `homeExt.action`. */
  function LoginSucceeded(finalUrl: string): (ok: bool)
    ensures ok <==> exists k :: OccursAt(finalUrl, HomeMarker, k)
  {
    Includes(finalUrl, HomeMarker)
  }

  /** The hash input is the salt of the page's first matching script, a dash, and the password. */
  lemma HashInputOfPage(scripts: seq<string>, password: string)
    ensures FirstSalt(scripts).Some? ==> HashInput(FirstSalt(scripts), password) == FirstSalt(scripts).value + "-" + password
    ensures FirstSalt(scripts).None? ==> HashInput(FirstSalt(scripts), password) == "undefined-" + password
  {
  }

  /** The end of a login script that reads the field as `form.password` rather than `form["password"]`. */
  const DotFieldTail := "-' + form.password.value)"

  /** A login script that hashes `<salt>-` followed by `form.password.value`. */
  function DotFieldScript(salt: string): string
  {
    SaltPrefix + salt + DotFieldTail
  }

  lemma LiteralsHaveNoBracket()
    ensures NoBracket(SaltPrefix) && NoBracket(DotFieldTail)
  {
    var a, b, c := "-' + ", "form.password", ".value)";
    assert NoBracket(a) && NoBracket(b) && NoBracket(c);
    NoBracketConcat(a, b);
    NoBracketConcat(a + b, c);
    assert a + b + c == DotFieldTail;
  }

  /** A page with one script that does not match yields no salt. */
  lemma FirstSaltOfOne(script: string)
    requires MatchSalt(script).None?
    ensures FirstSalt([script]).None?
  {
    assert [script][1..] == [];
  }

  /**
    A login page whose script reads `form.password.value` yields no salt, whatever
    the salt written in it, so the password is hashed as `undefined-<password>`.
  */
  lemma DotPasswordFieldIsNotMatched(salt: string, password: string)
    requires NoBracket(salt)
    ensures FirstSalt([DotFieldScript(salt)]).None?
    ensures HashInput(FirstSalt([DotFieldScript(salt)]), password) == "undefined-" + password
  {
    LiteralsHaveNoBracket();
    NoBracketConcat(SaltPrefix, salt);
    NoBracketConcat(SaltPrefix + salt, DotFieldTail);
    NoMatchWithoutBracket(DotFieldScript(salt));
    FirstSaltOfOne(DotFieldScript(salt));
  }

  // ---------------------------------------------------------------------------
  // getDataFromFreeClassroomHTML
  // ---------------------------------------------------------------------------

  /** A result cell's text: `text.trim().replace(/\s+/g, " ")`. */
  function CellText(raw: string): (r: string)
    ensures |r| <= |raw|
  {
    CollapseWhiteSpace(Trim(raw))
  }

  /**
    A cell's text has no white space at either end, no white space but single
    plain spaces, and every other character of the raw text in order.
  */
  lemma CellTextShape(raw: string)
    ensures var r := CellText(raw);
      && (r == [] || (!IsWhiteSpace(r[0]) && !IsWhiteSpace(r[|r| - 1])))
      && SingleSpaced(r)
      && Visible(r) == Visible(raw)
  {
    var t := Trim(raw);
    CollapseEnds(t);
    CollapseSingleSpaced(t);
    CollapseKeepsVisible(t);
    TrimKeepsVisible(raw);
  }

  lemma SingleSpacedTail(s: string)
    requires SingleSpaced(s) && s != []
    ensures SingleSpaced(s[1..])
  {
    var t := s[1..];
    forall i | 0 <= i < |t| && IsWhiteSpace(t[i]) ensures t[i] == ' ' {
      assert t[i] == s[i + 1];
    }
    forall i | 0 <= i < |t| - 1 ensures !(t[i] == ' ' && t[i + 1] == ' ') {
      assert t[i] == s[i + 1] && t[i + 1] == s[i + 2];
    }
  }

  /** A single-spaced text is left unchanged by the collapse. */
  lemma {:induction false} CollapseSingleSpacedIsIdentity(s: string)
    requires SingleSpaced(s)
    ensures CollapseWhiteSpace(s) == s
    decreases |s|, 1
  {
    if s != [] && IsWhiteSpace(s[0]) {
      CollapseAfterSpace(s);
    } else if s != [] {
      var t := s[1..];
      SingleSpacedTail(s);
      CollapseSingleSpacedIsIdentity(t);
      assert CollapseWhiteSpace(s) == [s[0]] + CollapseWhiteSpace(t);
      assert s == [s[0]] + t;
    }
  }

  lemma SpaceIsSingle(t: string)
    requires SingleSpaced(t) && t != [] && IsWhiteSpace(t[0])
    ensures t[0] == ' ' && (|t| > 1 ==> !IsWhiteSpace(t[1]))
  {
    if |t| > 1 {
      assert !(t[0] == ' ' && t[1] == ' ');
    }
  }

  /** A single-spaced text that starts with its single space is left unchanged by the collapse. */
  lemma {:induction false} CollapseAfterSpace(t: string)
    requires SingleSpaced(t) && t != [] && IsWhiteSpace(t[0])
    ensures CollapseWhiteSpace(t) == t
    decreases |t|, 0
  {
    var u := t[1..];
    SpaceIsSingle(t);
    SingleSpacedTail(t);
    assert TrimStart(t) == u;
    CollapseSingleSpacedIsIdentity(u);
    assert CollapseWhiteSpace(t) == " " + CollapseWhiteSpace(u);
    assert t == " " + u;
  }

  /** Normalising a cell's text twice changes nothing more. */
  lemma CellTextIdempotent(raw: string)
    ensures CellText(CellText(raw)) == CellText(raw)
  {
    var r := CellText(raw);
    CellTextShape(raw);
    assert SkipWhiteSpace(r, 0) == 0;
    assert SkipWhiteSpaceBack(r, 0, |r|) == |r|;
    assert Trim(r) == r;
    CollapseSingleSpacedIsIdentity(r);
  }

  /** A cell without white space is kept as it is. */
  lemma CellTextOfPlainText(raw: string)
    requires forall i :: 0 <= i < |raw| ==> !IsWhiteSpace(raw[i])
    ensures CellText(raw) == raw
  {
    assert SkipWhiteSpace(raw, 0) == 0;
    assert SkipWhiteSpaceBack(raw, 0, |raw|) == |raw|;
    assert Trim(raw) == raw;
    CollapseSingleSpacedIsIdentity(raw);
  }

  /** The `tbody` rows of the result table, each a sequence of raw cell texts. */
  type Table = seq<seq<string>>

  /** Every cell of a row normalised. */
  function NormalizedRow(row: seq<string>): (r: seq<string>)
    ensures |r| == |row| && forall k :: 0 <= k < |row| ==> r[k] == CellText(row[k])
  {
    seq(|row|, k requires 0 <= k < |row| => CellText(row[k]))
  }

  /** `rows.map(line => line[1])`: a row with fewer than two cells yields `undefined`. */
  function SecondCells(rows: seq<seq<string>>): (names: seq<Option<string>>)
    ensures |names| == |rows|
    ensures forall i :: 0 <= i < |rows| ==> names[i] == (if |rows[i]| >= 2 then Some(rows[i][1]) else None)
  {
    seq(|rows|, i requires 0 <= i < |rows| => if |rows[i]| >= 2 then Some(rows[i][1]) else None)
  }

  /**
    The nested loops of the table extraction: one entry per row, in row order,
    holding the normalised text of the row's second cell, or `None` when the row
    has fewer than two cells.
  */
  method NamesFromTable(table: Table) returns (names: seq<Option<string>>)
    ensures |names| == |table|
    ensures forall i :: 0 <= i < |table| ==>
      names[i] == (if |table[i]| >= 2 then Some(CellText(table[i][1])) else None)
  {
    var rows: seq<seq<string>> := [];
    var i := 0;
    while i < |table|
      invariant 0 <= i <= |table| && |rows| == i
      invariant forall r :: 0 <= r < i ==> rows[r] == NormalizedRow(table[r])
    {
      var row: seq<string> := [];
      var k := 0;
      while k < |table[i]|
        invariant 0 <= k <= |table[i]| && |row| == k
        invariant forall c :: 0 <= c < k ==> row[c] == CellText(table[i][c])
      {
        row := row + [CellText(table[i][k])];
        k := k + 1;
      }
      rows := rows + [row];
      i := i + 1;
    }
    names := SecondCells(rows);
  }

  /** The extraction as a function of the table, for use in contracts. */
  function ExtractedNames(table: Table): (names: seq<Option<string>>)
    ensures |names| == |table|
    ensures forall i :: 0 <= i < |table| ==>
      names[i] == (if |table[i]| >= 2 then Some(CellText(table[i][1])) else None)
  {
    SecondCells(seq(|table|, i requires 0 <= i < |table| => NormalizedRow(table[i])))
  }

  /** Three result rows, the third with an empty name cell: the names are read in row order, the empty one as `""`. */
  lemma ThreeRowExample()
    ensures ExtractedNames([["1", "GX101", "..."], ["2", "GX102", "..."], ["3", "", "..."]])
      == [Some("GX101"), Some("GX102"), Some("")]
  {
    CellTextOfPlainText("GX101");
    CellTextOfPlainText("GX102");
    CellTextOfPlainText("");
  }

  // ---------------------------------------------------------------------------
  // getFreeClassroom: form serialisation
  // ---------------------------------------------------------------------------

  /**
    The loop that appends each entry of the request object to the form: one pair
    per entry, in entry order, key verbatim and value in its string form.
  */
  method SerializeEntries(entries: seq<Entry>) returns (form: Form)
    ensures |form| == |entries|
    ensures forall i :: 0 <= i < |entries| ==> form[i] == (entries[i].0, entries[i].1.ToString())
    ensures form == Stringify(entries)
  {
    form := [];
    var i := 0;
    while i < |entries|
      invariant 0 <= i <= |entries| && |form| == i
      invariant forall k :: 0 <= k < i ==> form[k] == (entries[k].0, entries[k].1.ToString())
    {
      form := form + [(entries[i].0, entries[i].1.ToString())];
      i := i + 1;
    }
  }

  // ---------------------------------------------------------------------------
  // The client and its exchanges with the portal
  // ---------------------------------------------------------------------------

  /** The pause `avoidTooFastWarning` takes before every POST, in milliseconds. */
  const PauseMs := 3000

  datatype Event =
    | GetLoginPage
    | Pause(ms: int)
    | PostLogin(form: Form)
    | PostSearch(form: Form)
  {
    predicate IsPost()
    {
      PostLogin? || PostSearch?
    }
  }

  /** Every POST in the trace comes right after the fixed pause. */
  predicate PausedBeforeEveryPost(trace: seq<Event>)
  {
    forall i :: 0 <= i < |trace| && trace[i].IsPost() ==> i > 0 && trace[i - 1] == Pause(PauseMs)
  }

  /** The events of one `login` call. */
  function LoginEvents(form: Form): seq<Event>
  {
    [GetLoginPage, Pause(PauseMs), PostLogin(form)]
  }

  /** The events of one `getFreeClassroom` call. */
  function SearchEvents(form: Form): seq<Event>
  {
    [Pause(PauseMs), PostSearch(form)]
  }

  /** Appending the events of a call keeps every POST right after a pause. */
  lemma PauseKeptByAppend(trace: seq<Event>, more: seq<Event>)
    requires PausedBeforeEveryPost(trace) && PausedBeforeEveryPost(more)
    requires more != [] ==> !more[0].IsPost()
    ensures PausedBeforeEveryPost(trace + more)
  {
    var t := trace + more;
    forall i | 0 <= i < |t| && t[i].IsPost() ensures i > 0 && t[i - 1] == Pause(PauseMs) {
      if i >= |trace| {
        assert t[i] == more[i - |trace|];
        if i - |trace| > 0 {
          assert t[i - 1] == more[i - |trace| - 1];
        }
      }
    }
  }

  /** The scraping client: its session is represented by the trace of exchanges so far. */
  class Client {
    var trace: seq<Event>

    ghost predicate Valid()
      reads this
    {
      PausedBeforeEveryPost(trace)
    }

    constructor ()
      ensures Valid() && trace == []
    {
      trace := [];
    }

    /**
      `login(username, password)`: fetches the login page (whose scripts are
      `scripts`), pauses, posts the salted-hash form, and reports whether the
      redirect chain (`redirect` gives its final URL) ends on the home page.
    */
    method Login(username: string, password: string, scripts: seq<string>,
                 redirect: Form -> string, sha1: string -> string) returns (ok: bool)
      requires Valid()
      modifies this
      ensures Valid()
      ensures trace == old(trace) + LoginEvents(LoginForm(username, password, FirstSalt(scripts), sha1))
      ensures ok <==> LoginSucceeded(redirect(LoginForm(username, password, FirstSalt(scripts), sha1)))
    {
      trace := trace + [GetLoginPage];
      var salt := SaltFromScripts(scripts);
      trace := trace + [Pause(PauseMs)];
      var form := LoginForm(username, password, salt, sha1);
      trace := trace + [PostLogin(form)];
      ok := LoginSucceeded(redirect(form));
      PauseKeptByAppend(old(trace), LoginEvents(form));
    }

    /**
      `getFreeClassroom(options)`: pauses, posts the serialised request, and reads
      the classroom names out of the table the portal answers with (`respond`).
    */
    method GetFreeClassroom(entries: seq<Entry>, respond: Form -> Table) returns (names: seq<Option<string>>)
      requires Valid()
      modifies this
      ensures Valid()
      ensures trace == old(trace) + SearchEvents(Stringify(entries))
      ensures names == ExtractedNames(respond(Stringify(entries)))
    {
      trace := trace + [Pause(PauseMs)];
      var form := SerializeEntries(entries);
      trace := trace + [PostSearch(form)];
      names := NamesFromTable(respond(form));
      PauseKeptByAppend(old(trace), SearchEvents(form));
    }
  }
}
