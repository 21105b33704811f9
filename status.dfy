/**
 * The strings both renderers derive from the session: the window title set by
 * `setDirty`, the left and right texts of the status bar set by
 * `refreshStatusBar`, and the alerts shown when the library fails.
 */
module Status {
  import opened Wrappers
  import opened Text
  import opened CryptoOptions

  const AppName := "EncryptPad"
  const DirtyMark := " *"
  /** The separator between name and path: an em dash whose UTF-8 bytes were read as Windows-1252, kept verbatim. */
  const TitleSeparator := " \U{E2}\U{20AC}\U{201D} "

  /** A path is shown only when it is present and not empty (JavaScript truthiness). */
  predicate Truthy(path: Option<string>) {
    path.Some? && path.value != ""
  }

  /** `document.title` as `setDirty` writes it. */
  function Title(dirty: bool, path: Option<string>): (t: string)
    ensures |t| >= |AppName| && t[..|AppName|] == AppName
    ensures |t| == |AppName| <==> !dirty && !Truthy(path)
  {
    AppName + (if dirty then DirtyMark else "") + (if Truthy(path) then TitleSeparator + path.value else "")
  }

  /** What a title tells the user: the dirty flag and the path, if one is shown. */
  datatype TitleState = TitleState(dirty: bool, path: Option<string>)

  /** Reads a title back. */
  function ParseTitle(t: string): Option<TitleState> {
    if |t| < |AppName| || t[..|AppName|] != AppName then None
    else
      var rest := t[|AppName|..];
      var dirty := |rest| >= |DirtyMark| && rest[..|DirtyMark|] == DirtyMark;
      var tail := if dirty then rest[|DirtyMark|..] else rest;
      if tail == [] then Some(TitleState(dirty, None))
      else if |tail| > |TitleSeparator| && tail[..|TitleSeparator|] == TitleSeparator then
        Some(TitleState(dirty, Some(tail[|TitleSeparator|..])))
      else None
  }

  /**
   * The title determines the dirty flag and the shown path: ` *` appears exactly
   * when dirty, and the separator and path exactly when the path is truthy.
   */
  lemma TitleRoundTrip(dirty: bool, path: Option<string>)
    ensures ParseTitle(Title(dirty, path)) == Some(TitleState(dirty, if Truthy(path) then path else None))
  {
    var t := Title(dirty, path);
    var rest := t[|AppName|..];
    var tail := (if Truthy(path) then TitleSeparator + path.value else "");
    assert rest == (if dirty then DirtyMark else "") + tail;
    if !dirty && Truthy(path) {
      assert rest[1] == TitleSeparator[1] != DirtyMark[1];
    }
    if dirty {
      assert rest[|DirtyMark|..] == tail;
    }
    if Truthy(path) {
      assert tail[..|TitleSeparator|] == TitleSeparator;
      assert tail[|TitleSeparator|..] == path.value;
    }
  }

  /** Two sessions whose titles agree agree on the dirty flag and on the shown path. */
  lemma TitleDistinguishes(d1: bool, p1: Option<string>, d2: bool, p2: Option<string>)
    requires Title(d1, p1) == Title(d2, p2)
    ensures d1 == d2
    ensures Truthy(p1) <==> Truthy(p2)
    ensures Truthy(p1) ==> p1 == p2
  {
    TitleRoundTrip(d1, p1);
    TitleRoundTrip(d2, p2);
  }

  const Untitled := "Untitled"
  const Modified := "(modified)"

  /** The name renderer.mjs shows: the base name of a truthy path, else `Untitled`. */
  function FileName(path: Option<string>): (name: string)
    ensures !Truthy(path) ==> name == Untitled
    ensures Truthy(path) ==> |name| <= |path.value| && name == path.value[|path.value| - |name|..]
    ensures Truthy(path) ==> |name| == |path.value| || IsSeparator(path.value[|path.value| - |name| - 1])
    ensures forall i :: 0 <= i < |name| ==> !IsSeparator(name[i])
  {
    if Truthy(path) then BaseName(path.value) else Untitled
  }

  /** The name renderer.js shows: the whole truthy path, else `Untitled`. */
  function FullName(path: Option<string>): string {
    if Truthy(path) then path.value else Untitled
  }

  /**
   * `${name} ${dirty ? '(modified)' : ''}`.trim(): a clean session shows the
   * trimmed name; a dirty one shows the name without its leading whitespace
   * (trailing whitespace stays, before the separating space) and ` (modified)`,
   * or `(modified)` alone when the name is all whitespace.
   */
  function LeftLabel(name: string, dirty: bool): string {
    Trim(name + " " + (if dirty then Modified else ""))
  }

  /** The three shapes of the left label, by dirtiness and by whether the name is blank. */
  lemma LeftLabelCases(name: string, dirty: bool)
    ensures !dirty ==> LeftLabel(name, dirty) == Trim(name)
    ensures dirty && AllSpace(name) ==> LeftLabel(name, dirty) == Modified
    ensures dirty && !AllSpace(name) ==> LeftLabel(name, dirty) == TrimStart(name) + " " + Modified
  {
    if !dirty {
      TrimSpaced(name);
    } else {
      ModifiedTrimmed();
      if AllSpace(name) {
        TrimBlankThen(name, Modified);
      } else {
        TrimWordThen(name, Modified);
      }
    }
  }

  lemma ModifiedTrimmed()
    ensures Modified != [] && Trimmed(Modified)
  {
    assert Modified[0] == '(' && Modified[|Modified| - 1] == ')';
  }

  /** The space appended to a clean name is trimmed away with the name's own whitespace. */
  lemma TrimSpaced(name: string)
    ensures Trim(name + " " + "") == Trim(name)
  {
    var s := name + " " + "";
    assert s == name + [' '];
    if AllSpace(name) {
      TrimStartSkipsBlank(name, [' ']);
    } else {
      TrimStartKeepsRest(name, [' ']);
      TrimEndSpaces(TrimStart(name), [' ']);
    }
  }

  /** Trimming a blank name, a space and a word leaves the word. */
  lemma TrimBlankThen(name: string, word: string)
    requires AllSpace(name) && word != [] && Trimmed(word)
    ensures Trim(name + " " + word) == word
  {
    var s := name + " " + word;
    assert TrimStart(s) == word by {
      var tail := [' '] + word;
      assert s == name + tail;
      TrimStartSkipsBlank(name, tail);
      assert AllSpace([' ']);
      TrimStartSkipsBlank([' '], word);
      TrimStartKeeps(word);
    }
    TrimToTrimmed(s, word);
  }

  /** Text whose leading whitespace leaves `r`, which ends in a non-space character, trims to `r`. */
  lemma TrimToTrimmed(s: string, r: string)
    requires TrimStart(s) == r && (r == [] || !IsSpace(r[|r| - 1]))
    ensures Trim(s) == r
  {
    TrimEndKeeps(r);
  }

  /** Trimming a non-blank name, a space and a word removes only the name's leading whitespace. */
  lemma TrimWordThen(name: string, word: string)
    requires !AllSpace(name) && word != [] && Trimmed(word)
    ensures Trim(name + " " + word) == TrimStart(name) + " " + word
  {
    assert name + " " + word == name + ([' '] + word);
    TrimStartKeepsRest(name, [' '] + word);
    TrimSpaceWord(name + " " + word, TrimStart(name), word);
  }

  /** Text whose leading whitespace leaves `t`, a space and a word ending in a non-space character trims to just that. */
  lemma TrimSpaceWord(s: string, t: string, word: string)
    requires TrimStart(s) == t + ([' '] + word) && word != [] && !IsSpace(word[|word| - 1])
    ensures Trim(s) == t + " " + word
  {
    var tail := [' '] + word;
    LastOfAppend([' '], word);
    LastOfAppend(t, tail);
    TrimToTrimmed(s, t + tail);
    SpaceBetween(t, word);
  }

  lemma LastOfAppend(a: string, b: string)
    requires b != []
    ensures (a + b)[|a + b| - 1] == b[|b| - 1]
  {
  }

  lemma SpaceBetween(a: string, b: string)
    ensures a + ([' '] + b) == a + " " + b
  {
    assert " " == [' '];
  }

  /** A name with no whitespace at either end is shown as is, followed by ` (modified)` exactly when dirty. */
  lemma LeftLabelShape(name: string, dirty: bool)
    requires name != [] && Trimmed(name)
    ensures LeftLabel(name, dirty) == name + (if dirty then " " + Modified else "")
  {
    LeftLabelCases(name, dirty);
    assert !AllSpace(name) by {
      assert !IsSpace(name[0]);
    }
    assert TrimStart(name) == name;
    assert name + " " + Modified == name + (" " + Modified);
    assert name + "" == name;
  }

  /** An empty name (a path ending in a separator) leaves just `(modified)` or nothing. */
  lemma LeftLabelEmptyName(dirty: bool)
    ensures LeftLabel("", dirty) == if dirty then Modified else ""
  {
    LeftLabelCases("", dirty);
    assert AllSpace("");
  }

  /** `crypto.symmetric?.toUpperCase() || 'AES256'`: a missing or empty name shows `AES256`, any other name its upper case. */
  function CipherPart(crypto: Option<CryptoPrefs>): (part: string)
    ensures part != []
    ensures Falsy(Symmetric(crypto)) ==> part == "AES256"
    ensures !Falsy(Symmetric(crypto)) ==> |part| == |Symmetric(crypto).value| && part == Upper(Symmetric(crypto).value)
  {
    if Falsy(Symmetric(crypto)) then "AES256" else Upper(Symmetric(crypto).value)
  }

  /** `crypto.aead ? '+AEAD' : ''`: the marker appears only for an AEAD option that is present and true. */
  function AeadPart(crypto: Option<CryptoPrefs>): (part: string)
    ensures part == "+AEAD" || part == ""
    ensures part == "+AEAD" <==> Aead(crypto) == Some(true)
  {
    if Aead(crypto) == Some(true) then "+AEAD" else ""
  }

  /** `crypto.compression || 'zlib'` */
  function CompressionPart(crypto: Option<CryptoPrefs>): string {
    OrElse(CompressionOption(crypto), "zlib")
  }

  /** The crypto description at the end of the right status text. */
  function CryptoLabel(crypto: Option<CryptoPrefs>): string {
    CipherPart(crypto) + AeadPart(crypto) + "/" + CompressionPart(crypto)
  }

  /**
   * The crypto description reads back: the cipher part first, then the AEAD
   * marker, and `/` followed by the compression part last.
   */
  lemma CryptoLabelLayout(crypto: Option<CryptoPrefs>)
    ensures var desc, c, a, z := CryptoLabel(crypto), CipherPart(crypto), AeadPart(crypto), CompressionPart(crypto);
            && |desc| == |c| + |a| + 1 + |z|
            && desc[..|c|] == c
            && desc[|c|..|c| + |a|] == a
            && desc[|desc| - |z| - 1..] == "/" + z
  {
    var c, a, z := CipherPart(crypto), AeadPart(crypto), CompressionPart(crypto);
    var desc := c + a + "/" + z;
    assert desc == c + (a + ("/" + z));
    assert desc[..|c|] == c;
    assert desc[|c|..|c| + |a|] == a;
    assert desc[|desc| - |z| - 1..] == "/" + z;
  }

  /**
   * Where encryption would pick a known cipher and compression and the AEAD
   * option is set, the label names exactly what the library is given.
   */
  lemma LabelDescribesConfig(crypto: Option<CryptoPrefs>)
    ensures Resolve(crypto).preferredSymmetricAlgorithm.Own? ==>
              CipherPart(crypto) == Upper(CipherName(Resolve(crypto).preferredSymmetricAlgorithm.id))
    ensures Resolve(crypto).preferredCompressionAlgorithm.Own? ==>
              CompressionPart(crypto) == CompressionName(Resolve(crypto).preferredCompressionAlgorithm.id)
    ensures Aead(crypto).Some? ==> (AeadPart(crypto) == "+AEAD" <==> Resolve(crypto).aeadProtect)
  {
    assert Upper("aes256") == "AES256";
  }

  /**
   * Where the label and the configuration part: a missing AEAD option encrypts
   * with AEAD but shows no `+AEAD`, and an upper-case cipher name is shown as
   * AES256 although the table does not know it.
   */
  lemma LabelDisagreements(crypto: Option<CryptoPrefs>)
    ensures Aead(crypto).None? ==> AeadPart(crypto) == "" && Resolve(crypto).aeadProtect
    ensures Symmetric(crypto) == Some("AES256") ==>
              CipherPart(crypto) == "AES256" && Resolve(crypto).preferredSymmetricAlgorithm == Undefined
  {
    assert Upper("AES256") == "AES256";
  }

  /** `Ln ${line}, Col ${col} | ${words} words | UTF-8 | ${cryptoStr}`: the numbers, then the crypto label. */
  function RightLabel(line: nat, col: nat, words: nat, cryptoLabel: string): string {
    RightNumbers(line, col, words) + cryptoLabel
  }

  /** The part of the right text before the crypto label. */
  function RightNumbers(line: nat, col: nat, words: nat): string {
    "Ln " + (Decimal(line) + (", Col " + (Decimal(col) + (" | " + (Decimal(words) + " words | UTF-8 | ")))))
  }

  /** The line, column and word numbers can be read back from the right text, which ends with the crypto label. */
  lemma RightLabelReadsBack(line: nat, col: nat, words: nat, cryptoLabel: string)
    ensures var r := RightLabel(line, col, words, cryptoLabel);
            var i := 3 + |Decimal(line)| + 6;
            var j := i + |Decimal(col)| + 3;
            && j <= |r|
            && DigitsValue(LeadingDigits(r[3..])) == line
            && DigitsValue(LeadingDigits(r[i..])) == col
            && DigitsValue(LeadingDigits(r[j..])) == words
            && r[|r| - |cryptoLabel|..] == cryptoLabel
  {
    ReadsLine(line, col, words, cryptoLabel);
    ReadsColumn(line, col, words, cryptoLabel);
    ReadsWords(line, col, words, cryptoLabel);
    EndsWithLabel(line, col, words, cryptoLabel);
  }

  lemma {:induction false} ReadsLine(line: nat, col: nat, words: nat, cryptoLabel: string)
    ensures DigitsValue(LeadingDigits(RightLabel(line, col, words, cryptoLabel)[3..])) == line
  {
    var rest := ", Col " + (Decimal(col) + (" | " + (Decimal(words) + " words | UTF-8 | ")));
    MoveLabel2("Ln ", Decimal(line), rest, cryptoLabel);
    ReadAt("Ln ", line, rest + cryptoLabel);
  }

  lemma {:induction false} ReadsColumn(line: nat, col: nat, words: nat, cryptoLabel: string)
    ensures |RightLabel(line, col, words, cryptoLabel)| >= 3 + |Decimal(line)| + 6
    ensures DigitsValue(LeadingDigits(RightLabel(line, col, words, cryptoLabel)[3 + |Decimal(line)| + 6..])) == col
  {
    var rest := " | " + (Decimal(words) + " words | UTF-8 | ");
    MoveLabel4("Ln ", Decimal(line), ", Col ", Decimal(col), rest, cryptoLabel);
    ReadAt("Ln " + Decimal(line) + ", Col ", col, rest + cryptoLabel);
  }

  lemma {:induction false} ReadsWords(line: nat, col: nat, words: nat, cryptoLabel: string)
    ensures |RightLabel(line, col, words, cryptoLabel)| >= 3 + |Decimal(line)| + 6 + |Decimal(col)| + 3
    ensures DigitsValue(LeadingDigits(RightLabel(line, col, words, cryptoLabel)[3 + |Decimal(line)| + 6 + |Decimal(col)| + 3..])) == words
  {
    var rest := " words | UTF-8 | ";
    MoveLabel6("Ln ", Decimal(line), ", Col ", Decimal(col), " | ", Decimal(words), rest, cryptoLabel);
    ReadAt("Ln " + Decimal(line) + ", Col " + Decimal(col) + " | ", words, rest + cryptoLabel);
  }

  lemma {:induction false} EndsWithLabel(line: nat, col: nat, words: nat, cryptoLabel: string)
    ensures var r := RightLabel(line, col, words, cryptoLabel);
            |r| >= |cryptoLabel| && r[|r| - |cryptoLabel|..] == cryptoLabel
  {
    EndsWith(RightNumbers(line, col, words), cryptoLabel);
  }

  lemma EndsWith(p: string, suffix: string)
    ensures |p + suffix| >= |suffix| && (p + suffix)[|p + suffix| - |suffix|..] == suffix
  {
  }

  /** Regroupings that put a number field right after the text before it. */
  lemma MoveLabel2(a: string, b: string, rest: string, l: string)
    ensures (a + (b + rest)) + l == a + (b + (rest + l))
  {
  }

  lemma MoveLabel4(a: string, b: string, c: string, d: string, rest: string, l: string)
    ensures (a + (b + (c + (d + rest)))) + l == (a + b + c) + (d + (rest + l))
  {
  }

  lemma MoveLabel6(a: string, b: string, c: string, d: string, e: string, f: string, rest: string, l: string)
    ensures (a + (b + (c + (d + (e + (f + rest)))))) + l == (a + b + c + d + e) + (f + (rest + l))
  {
    MoveLabel4(a, b, c, d, e + (f + rest), l);
    MoveLabel2(a + b + c + d, e, f + rest, l);
  }

  /** A number placed after `prefix` and followed by a non-digit is read back from that position. */
  lemma {:induction false} ReadAt(prefix: string, n: nat, rest: string)
    requires rest == [] || !IsDigit(rest[0])
    ensures (prefix + (Decimal(n) + rest))[|prefix|..] == Decimal(n) + rest
    ensures DigitsValue(LeadingDigits((prefix + (Decimal(n) + rest))[|prefix|..])) == n
  {
    assert (prefix + (Decimal(n) + rest))[|prefix|..] == Decimal(n) + rest;
    DecimalRead(n, rest);
  }

  /** renderer.mjs's left status text. */
  function PromptStatusLeft(path: Option<string>, dirty: bool): string {
    LeftLabel(FileName(path), dirty)
  }

  /** renderer.mjs's right status text, for the cursor at offset `head` of `text`. */
  function PromptStatusRight(text: string, head: nat, crypto: Option<CryptoPrefs>): string
    requires head <= |text|
  {
    RightLabel(LineNumber(text, head), Column(text, head), WordCount(text), CryptoLabel(crypto))
  }

  /** renderer.js's left status text. */
  function InlineStatusLeft(path: Option<string>, dirty: bool): string {
    LeftLabel(FullName(path), dirty)
  }

  /** renderer.js's right status text, for the cursor at 0-based line `line` and character `ch`. */
  function InlineStatusRight(text: string, line: nat, ch: nat, crypto: Option<CryptoPrefs>): string {
    RightLabel(line + 1, ch + 1, WordCount(text), CryptoLabel(crypto))
  }

  /** Without a path, or with an empty one, renderer.mjs shows `Untitled`, followed by ` (modified)` exactly when dirty. */
  lemma PromptUntitled(dirty: bool)
    ensures PromptStatusLeft(None, dirty) == Untitled + (if dirty then " " + Modified else "")
    ensures PromptStatusLeft(Some(""), dirty) == PromptStatusLeft(None, dirty)
  {
    assert FileName(None) == FileName(Some("")) == Untitled;
    UntitledShape(dirty);
  }

  /** Without a path, or with an empty one, renderer.js shows `Untitled`, followed by ` (modified)` exactly when dirty. */
  lemma InlineUntitled(dirty: bool)
    ensures InlineStatusLeft(None, dirty) == Untitled + (if dirty then " " + Modified else "")
    ensures InlineStatusLeft(Some(""), dirty) == InlineStatusLeft(None, dirty)
  {
    assert FullName(None) == FullName(Some("")) == Untitled;
    UntitledShape(dirty);
  }

  lemma UntitledShape(dirty: bool)
    ensures LeftLabel(Untitled, dirty) == Untitled + (if dirty then " " + Modified else "")
  {
    LeftLabelShape(Untitled, dirty);
  }

  /**
   * With a path, renderer.mjs shows the part after the last separator,
   * labelled as `LeftLabel` says; a name with no whitespace at either end is
   * followed by ` (modified)` exactly when dirty.
   */
  lemma PromptStatusLeftLabels(dir: string, sep: char, name: string, dirty: bool)
    requires IsSeparator(sep)
    requires forall i :: 0 <= i < |name| ==> !IsSeparator(name[i])
    ensures PromptStatusLeft(Some(dir + [sep] + name), dirty) == LeftLabel(name, dirty)
    ensures name != [] && Trimmed(name) ==>
              PromptStatusLeft(Some(dir + [sep] + name), dirty) == name + (if dirty then " " + Modified else "")
  {
    BaseNameJoin(dir, sep, name);
    if name != [] && Trimmed(name) {
      LeftLabelShape(name, dirty);
    }
  }

  /**
   * With a non-empty path, renderer.js shows the whole path; a path with no
   * whitespace at either end is followed by ` (modified)` exactly when dirty.
   */
  lemma InlineStatusLeftLabels(path: string, dirty: bool)
    requires path != []
    ensures InlineStatusLeft(Some(path), dirty) == LeftLabel(path, dirty)
    ensures Trimmed(path) ==> InlineStatusLeft(Some(path), dirty) == path + (if dirty then " " + Modified else "")
  {
    if Trimmed(path) {
      LeftLabelShape(path, dirty);
    }
  }

  /** renderer.mjs's right status text starts with the line number of the cursor offset. */
  lemma {:induction false} PromptStatusLine(text: string, head: nat, crypto: Option<CryptoPrefs>)
    requires head <= |text|
    ensures var r := PromptStatusRight(text, head, crypto);
            |r| >= 3 && DigitsValue(LeadingDigits(r[3..])) == LineNumber(text, head)
  {
    var line, col, words, shown := LineNumber(text, head), Column(text, head), WordCount(text), CryptoLabel(crypto);
    assert PromptStatusRight(text, head, crypto) == RightLabel(line, col, words, shown);
    ReadsLine(line, col, words, shown);
  }

  /** renderer.mjs's right status text then shows the 1-based column of the cursor offset. */
  lemma {:induction false} PromptStatusColumn(text: string, head: nat, crypto: Option<CryptoPrefs>)
    requires head <= |text|
    ensures var r := PromptStatusRight(text, head, crypto);
            var i := 3 + |Decimal(LineNumber(text, head))| + 6;
            |r| >= i && DigitsValue(LeadingDigits(r[i..])) == Column(text, head)
  {
    var line, col, words, shown := LineNumber(text, head), Column(text, head), WordCount(text), CryptoLabel(crypto);
    assert PromptStatusRight(text, head, crypto) == RightLabel(line, col, words, shown);
    ReadsColumn(line, col, words, shown);
  }

  /** renderer.mjs's right status text ends with the crypto label. */
  lemma {:induction false} PromptStatusCrypto(text: string, head: nat, crypto: Option<CryptoPrefs>)
    requires head <= |text|
    ensures var r := PromptStatusRight(text, head, crypto);
            |r| >= |CryptoLabel(crypto)| && r[|r| - |CryptoLabel(crypto)|..] == CryptoLabel(crypto)
  {
    var line, col, words, shown := LineNumber(text, head), Column(text, head), WordCount(text), CryptoLabel(crypto);
    var r := PromptStatusRight(text, head, crypto);
    assert r == RightLabel(line, col, words, shown);
    EndsWithLabel(line, col, words, shown);
    assert |r| >= |shown| && r[|r| - |shown|..] == shown;
  }

  /** renderer.js's right status text starts with the 0-based cursor line plus one. */
  lemma {:induction false} InlineStatusLine(text: string, line: nat, ch: nat, crypto: Option<CryptoPrefs>)
    ensures var r := InlineStatusRight(text, line, ch, crypto);
            |r| >= 3 && DigitsValue(LeadingDigits(r[3..])) == line + 1
  {
    var words, shown := WordCount(text), CryptoLabel(crypto);
    assert InlineStatusRight(text, line, ch, crypto) == RightLabel(line + 1, ch + 1, words, shown);
    ReadsLine(line + 1, ch + 1, words, shown);
  }

  /** renderer.js's right status text then shows the 0-based cursor character plus one. */
  lemma {:induction false} InlineStatusColumn(text: string, line: nat, ch: nat, crypto: Option<CryptoPrefs>)
    ensures var r := InlineStatusRight(text, line, ch, crypto);
            var i := 3 + |Decimal(line + 1)| + 6;
            |r| >= i && DigitsValue(LeadingDigits(r[i..])) == ch + 1
  {
    var words, shown := WordCount(text), CryptoLabel(crypto);
    assert InlineStatusRight(text, line, ch, crypto) == RightLabel(line + 1, ch + 1, words, shown);
    ReadsColumn(line + 1, ch + 1, words, shown);
  }

  /** renderer.js's right status text ends with the crypto label. */
  lemma {:induction false} InlineStatusCrypto(text: string, line: nat, ch: nat, crypto: Option<CryptoPrefs>)
    ensures var r := InlineStatusRight(text, line, ch, crypto);
            |r| >= |CryptoLabel(crypto)| && r[|r| - |CryptoLabel(crypto)|..] == CryptoLabel(crypto)
  {
    var words, shown := WordCount(text), CryptoLabel(crypto);
    var r := InlineStatusRight(text, line, ch, crypto);
    assert r == RightLabel(line + 1, ch + 1, words, shown);
    EndsWithLabel(line + 1, ch + 1, words, shown);
    assert |r| >= |shown| && r[|r| - |shown|..] == shown;
  }

  const EncryptFailedPrefix := "Encryption failed: "
  const DecryptFailedPrefix := "Decryption failed: "
  const DecryptFailedHint := "\nMake sure the passphrase is correct and content is PGP armored."

  /** The alert shown when the library's encrypt call throws: the fixed prefix, then the library's message. */
  function EncryptFailedAlert(message: string): (alert: string)
    ensures |alert| == |EncryptFailedPrefix| + |message|
    ensures alert[..|EncryptFailedPrefix|] == EncryptFailedPrefix
    ensures alert[|EncryptFailedPrefix|..] == message
  {
    EncryptFailedPrefix + message
  }

  /** The alert shown when the library's decrypt call throws: the fixed prefix, the library's message, then the hint. */
  function DecryptFailedAlert(message: string): (alert: string)
    ensures |alert| == |DecryptFailedPrefix| + |message| + |DecryptFailedHint|
    ensures alert[..|DecryptFailedPrefix|] == DecryptFailedPrefix
    ensures alert[|DecryptFailedPrefix|..|alert| - |DecryptFailedHint|] == message
    ensures alert[|alert| - |DecryptFailedHint|..] == DecryptFailedHint
  {
    var alert := DecryptFailedPrefix + message + DecryptFailedHint;
    assert alert == DecryptFailedPrefix + (message + DecryptFailedHint);
    assert alert[|DecryptFailedPrefix|..] == message + DecryptFailedHint;
    alert
  }

  /** Different library messages give different alerts, so the message is never lost. */
  lemma FailedAlertsKeepMessage(m1: string, m2: string)
    ensures EncryptFailedAlert(m1) == EncryptFailedAlert(m2) ==> m1 == m2
    ensures DecryptFailedAlert(m1) == DecryptFailedAlert(m2) ==> m1 == m2
  {
  }

  /** The alert renderer.js shows when the passphrase field is empty. */
  const EnterPassphraseAlert := "Enter a passphrase"
}
