# EncryptPad: a model of the editor's document session and crypto options

EncryptPad is a small Electron text editor that stores files as plain text or
as OpenPGP password-encrypted, armored text. This project models the part of
it that decides what happens to a document:

- the **preload bridge** (`preload.mjs`). It turns the user's crypto
  preferences into the configuration handed to the OpenPGP library: the
  cipher and compression lookup tables, the `||` and `??` defaults, and the
  fact that the iteration count never reaches the library. It also exposes
  the menu-action channels `action:new`, `action:open`, `action:save`,
  `action:saveAs` and `action:settings`.
- the **two renderers**, each with its own document session:
  - `renderer.mjs` (module `PromptRenderer`) asks for a passphrase on every
    open and save. It decrypts the opened file or encrypts the saved copy.
  - `renderer.js` (module `InlineRenderer`) opens and saves files as they are,
    and encrypts or decrypts the editor's text in place with the passphrase
    from the toolbar field.

  For each session the model covers the dirty flag, the current path, the
  window title written by `setDirty`, the new/open/save actions, the close
  handshake and the settings dialog.
- the **strings the user sees**: the window title, the left and right
  status-bar texts (file name, `(modified)`, line, column, word count, crypto
  label) and the alert texts.

The OpenPGP library, the main process's file dialogs, `confirm` and the
passphrase dialog are not modelled as code. Their outcomes are inputs to
the model:

- the library's encrypt and decrypt calls are function values
  (`CryptoOptions.PgpEncrypt`, `CryptoOptions.PgpDecrypt`) that return
  either armored/plain text or an error message;
- `saveFile` is a function from the request to its result;
- the answers to `openFile`, `confirm` and the passphrase prompt are method
  parameters;
- alerts are returned as out-parameters.

JavaScript semantics the source relies on are written out:

- the truthiness of strings;
- `||` versus `??`;
- indexing a plain object literal with an inherited property name such as
  `"constructor"` (`CryptoOptions.Entry.Inherited`);
- the whitespace class of `\s` and `trim`;
- `/\S+/g` match counting;
- `split(/[\\/]/).pop()`;
- `Number(x) || d`;
- the decimal form of numbers in template literals.

Modules: `Wrappers` (Option, Result), `CryptoOptions`, `Bridge`, `Text`,
`Status`, `Preferences`, `PromptRenderer`, `InlineRenderer`.

Some properties show where the status bar and the encryption configuration
disagree. A missing AEAD option encrypts with AEAD, but the label shows no
`+AEAD`. An upper-case cipher name such as `AES256` is displayed as AES256,
but the cipher table does not know it. `Status.LabelDisagreements` states
both. In the settings a saved dialog sends to the main process, the AEAD
part of the label agrees with the configuration
(`Preferences.SavedSettingsAead`).

## Model

| member | source | states |
|---|---|---|
| `CryptoOptions.LookupSymmetric` | preload.mjs:5-9 | The cipher table yields an own entry exactly for `aes128`, `aes192` and `aes256`, each under its own name. It yields an inherited member exactly for the `Object.prototype` names, and `undefined` for everything else. |
| `CryptoOptions.LookupCompression` | preload.mjs:10-14 | The compression table yields an own entry exactly for `uncompressed`, `zip` and `zlib`, each under its own name. It yields an inherited member exactly for the `Object.prototype` names, and `undefined` for everything else. |
| `CryptoOptions.LookupSymmetricName` | preload.mjs:5-9 | Every cipher is found again under its table key, so the table is complete and unambiguous. |
| `CryptoOptions.LookupCompressionName` | preload.mjs:10-14 | Every compression algorithm is found again under its table key. |
| `CryptoOptions.Resolve` | preload.mjs:18-22 | A missing or empty cipher name gives AES-256, and the cipher entry is an own one exactly when the name is falsy or a table key. AEAD is on unless the option is present and false. A missing or empty compression name gives zlib, and the compression entry is an own one exactly when the name is falsy or a table key. |
| `CryptoOptions.ResolveDefaults` | preload.mjs:18-22 | With no preferences, or with an empty preferences object, the library is asked for AES-256, AEAD and zlib. |
| `CryptoOptions.ResolveUnknownName` | preload.mjs:19-21 | A non-empty cipher or compression name that is neither a table key nor an inherited property name reaches the library as `undefined`, not as an error and not as the default. |
| `CryptoOptions.ResolveInheritedName` | preload.mjs:19-21 | A truthy cipher or compression name that is a member of `Object.prototype` (such as `toString`) resolves to that inherited member, not to `undefined`. |
| `CryptoOptions.ResolveIgnoresIterationCount` | preload.mjs:18-22 | The configuration does not depend on the preferences' iteration count. |
| `CryptoOptions.EncryptText` | preload.mjs:16-30 | Any two option objects that agree on `symmetric`, `aead` and `compression` make the library be called with the same configuration, whatever else they hold (the iteration count, for one). |
| `CryptoOptions.EncryptIgnoresIterationCount` | preload.mjs:16-30 | Two preference objects that differ only in the iteration count make the library be called with the same configuration. |
| `CryptoOptions.DecryptInvertsEncrypt` | preload.mjs:32-40 | `decryptText` takes no preferences, so whatever configuration a text was encrypted under, a library that inverts its own encryption gives the text back. |
| `Bridge.Dispatch` | preload.mjs:55-60 | A message reaches the renderer's callback only on the channel `action:<key>` of a registered key, and the callback receives that key. |
| `Bridge.DispatchExactly` | preload.mjs:55-60 | Each of the five registered channels dispatches its own key, and every other key's channel dispatches nothing. |
| `Bridge.PromptRoute` | renderer.mjs:167-173 | Exactly the five registered keys run a command, each the command of its own name, and never encrypt or decrypt. |
| `Bridge.InlineRoute` | renderer.js:120-128 | The registered keys plus `encrypt` and `decrypt` run a command, each the command of its own name. `encrypt` is the only key that runs encrypt, and `decrypt` the only one that runs decrypt. The registered keys run the same command as in renderer.mjs. |
| `Bridge.RoutesDistinct` | renderer.js:120-128 | In either renderer, two different keys never run the same command. |
| `Bridge.MenuCommands` | renderer.js:120-128 | Every dispatched key runs a command in both renderers, and the same one in each. The menu never reaches renderer.js's encrypt or decrypt, because no channel carries those keys. |
| `Text.TrimStart` | renderer.mjs:102 | The result is the suffix of the input left after a maximal whitespace prefix. |
| `Text.TrimEnd` | renderer.mjs:102 | The result is the prefix of the input left before a maximal whitespace suffix. |
| `Text.Trim` | renderer.mjs:102 | The result has whitespace at neither end. It is empty exactly when the input is all whitespace. A trimmed input is unchanged. |
| `Text.TrimInfix` | renderer.mjs:102 | The input is a whitespace run, then the result of `trim`, then another whitespace run. |
| `Text.CountRunsZero` | renderer.mjs:102 | `/\S+/g` finds no match exactly when the text is all whitespace. |
| `Text.CountRunsJoin` | renderer.mjs:102 | The match counts on both sides of a whitespace character add up. |
| `Text.CountRunsWord` | renderer.mjs:102 | A non-empty run without whitespace is one match. |
| `Text.WordCount` | renderer.mjs:102 | Trimming before matching does not change the count, so the word count is the number of `/\S+/g` matches of the whole text. It is zero exactly when the text is all whitespace. |
| `Text.Upper` | renderer.mjs:104 | `toUpperCase` keeps the length and upper-cases each ASCII letter in place. |
| `Text.BaseName` | renderer.mjs:105 | The last element of `split(/[\\/]/)` is the maximal separator-free suffix of the path. |
| `Text.BaseNameJoin` | renderer.mjs:105 | The base name of `dir + separator + name` is `name`, whatever `dir` holds. |
| `Text.LineStart` | renderer.mjs:100 | The start of the cursor's line is at or before the cursor, with no line break between them, and follows a line break or is offset 0. |
| `Text.LineNumber` | renderer.mjs:99 | Lines are numbered from 1. |
| `Text.Column` | renderer.mjs:100 | The column is one more than the number of characters between the cursor and the last line break before it (or the start of the text): none of them is a line break, and the character before them is one. |
| `Text.SameLine` | renderer.mjs:99-100 | The start of the cursor's line has the cursor's line number. |
| `Text.AfterBreak` | renderer.mjs:99-100 | Right after a line break the cursor is in column 1 of the next line. |
| `Text.FirstLine` | renderer.mjs:99-100 | Before the first line break the line is 1 and the column is the offset plus one. |
| `Text.Decimal` | renderer.mjs:107 | A number is printed as non-empty decimal digits without a leading zero. |
| `Text.DecimalValue` | renderer.mjs:107 | Reading the printed digits back gives the number. |
| `Text.DecimalRead` | renderer.mjs:107 | A printed number followed by a non-digit is read back as exactly its own digits. |
| `Status.Title` | renderer.mjs:112 | The title starts with `EncryptPad`, and it is exactly `EncryptPad` when the session is clean and has no truthy path. |
| `Status.TitleRoundTrip` | renderer.mjs:112 | The title can be parsed back into the dirty flag and the shown path: ` *` appears exactly when dirty, and the separator and path exactly when the path is truthy. |
| `Status.TitleDistinguishes` | renderer.js:32 | Two sessions with equal titles agree on the dirty flag and on the shown path. |
| `Status.FileName` | renderer.mjs:105 | Without a truthy path the name is `Untitled`. Otherwise it is the last segment: a separator-free suffix of the path that is the whole path or follows a separator. |
| `Status.LeftLabelCases` | renderer.mjs:106 | A clean label is the trimmed name. A dirty one is the name without its leading whitespace followed by ` (modified)`, or `(modified)` alone when the name is all whitespace. |
| `Status.LeftLabelShape` | renderer.mjs:106 | A name with no whitespace at either end is shown as is, followed by ` (modified)` exactly when dirty. |
| `Status.LeftLabelEmptyName` | renderer.mjs:105-106 | An empty base name (a path ending in a separator) leaves only `(modified)` or nothing. |
| `Status.PromptUntitled` | renderer.mjs:105-106 | renderer.mjs shows `Untitled` for a missing or empty path, followed by ` (modified)` exactly when dirty. |
| `Status.InlineUntitled` | renderer.js:45 | renderer.js shows `Untitled` for a missing or empty path, followed by ` (modified)` exactly when dirty. |
| `Status.PromptStatusLeftLabels` | renderer.mjs:105-106 | For `dir + separator + name`, renderer.mjs labels the part after the last separator. A name with no whitespace at either end is followed by ` (modified)` exactly when dirty. |
| `Status.InlineStatusLeftLabels` | renderer.js:45 | renderer.js labels the whole non-empty path. A path with no whitespace at either end is followed by ` (modified)` exactly when dirty. |
| `Status.CipherPart` | renderer.mjs:104 | A missing or empty cipher name shows `AES256`. Any other name shows its upper case, of the same length. |
| `Status.AeadPart` | renderer.mjs:104 | The marker is `+AEAD` or nothing, and it is `+AEAD` exactly when the AEAD option is present and true. |
| `Status.CryptoLabelLayout` | renderer.mjs:104 | The label is the cipher part, then the AEAD marker, then `/` and the compression part, and each can be read back from its position. |
| `Status.LabelDescribesConfig` | renderer.mjs:103-104 | Where the cipher and compression are known to the tables, the label names exactly the algorithms the library is given. When the AEAD option is set, `+AEAD` appears exactly when AEAD is used. |
| `Status.LabelDisagreements` | renderer.mjs:104 | A missing AEAD option encrypts with AEAD without showing `+AEAD`. The cipher name `AES256` is displayed as is, but it resolves to `undefined`. |
| `Status.RightLabelReadsBack` | renderer.mjs:107 | The line, column and word numbers can be read back from their positions in the right status text, and the text ends with the crypto label. |
| `Status.PromptStatusLine` | renderer.mjs:95-108 | renderer.mjs's right status text starts with the line number of the cursor offset. |
| `Status.PromptStatusColumn` | renderer.mjs:95-108 | renderer.mjs's right status text then shows the 1-based column of the cursor offset. |
| `Status.PromptStatusCrypto` | renderer.mjs:95-108 | renderer.mjs's right status text ends with the crypto label. |
| `Status.InlineStatusLine` | renderer.js:36-47 | renderer.js's right status text starts with the 0-based cursor line plus one. |
| `Status.InlineStatusColumn` | renderer.js:36-47 | renderer.js's right status text then shows the 0-based cursor character plus one. |
| `Status.InlineStatusCrypto` | renderer.js:36-47 | renderer.js's right status text ends with the crypto label. |
| `Status.EncryptFailedAlert` | renderer.mjs:156 | The alert is `Encryption failed: ` followed by exactly the library's message. |
| `Status.DecryptFailedAlert` | renderer.mjs:140 | The alert is `Decryption failed: `, then exactly the library's message, then the passphrase hint. |
| `Status.FailedAlertsKeepMessage` | renderer.js:93 | Different library messages give different alerts. |
| `Preferences.NumberOr` | renderer.mjs:209 | `Number(x) \|\| d` is never zero when `d` is not. It is the number when that is non-zero, and the default otherwise. |
| `Preferences.NumberOrIdempotent` | renderer.mjs:209 | Submitting a value the form already produced gives it back. |
| `Preferences.Normalise` | renderer.mjs:206-216 | Theme, font and algorithm names are copied unchanged. The font size and the iteration count are non-zero. Each keeps a non-zero value, negative ones included, and falls back to its default when zero or not a number. `aead` is true exactly when the form said `"true"`. |
| `Preferences.SavedSettingsAead` | renderer.mjs:213 | In the settings a saved dialog sends to the main process, AEAD is used exactly when the form said `"true"`, and the label's `+AEAD` agrees with it. |
| `Preferences.SavedSettingsAlgorithms` | renderer.mjs:211-212 | In the settings a saved dialog sends to the main process, the library would be asked for the cipher and compression the form's names look up, with the same `\|\|` defaults. |
| `PromptRenderer.Session.constructor` | renderer.mjs:12-14 | A new session has an empty editor, no path, is clean, and keeps the page's title. |
| `PromptRenderer.Session.SetDirty` | renderer.mjs:110-114 | Sets the flag and makes the title describe it and the path. Nothing else changes. |
| `PromptRenderer.Session.ReplaceDocument` | renderer.mjs:62-65 | Replacing the document marks the session dirty unless both the old and the new text are empty. |
| `PromptRenderer.Session.Edit` | renderer.mjs:62-64 | An edit leaves the text in the editor and marks the session dirty. |
| `PromptRenderer.Session.DoNew` | renderer.mjs:124-129 | When dirty and the discard is refused, nothing changes. Otherwise the editor is empty, there is no path and the session is clean. |
| `PromptRenderer.Session.DoOpen` | renderer.mjs:131-147 | Cancel changes nothing. A failing decrypt changes nothing and raises the decryption alert. With an empty or cancelled passphrase the raw content is loaded; with a passphrase the decrypted text is loaded. Either way the path is the file's and the session is clean. |
| `PromptRenderer.Session.Payload` | renderer.mjs:150-159 | The saved text is the document itself without a passphrase, and its encryption under the resolved settings with one. |
| `PromptRenderer.Session.DoSave` | renderer.mjs:149-164 | The editor's text is never changed. A failing encrypt changes nothing and sends nothing. Otherwise the payload goes to `saveFile` with no target for "save as" and the current path for "save". A cancelled save changes nothing, and a completed one sets the path and cleans the session. |
| `PromptRenderer.Session.OnRequestClose` | renderer.mjs:176-183 | Closing is allowed exactly when the session is clean or the user confirms. |
| `PromptRenderer.Session.SaveSettings` | renderer.mjs:203-220 | Only a "save" close whose `setSettings` call succeeds stores the main process's answer to the normalised form, with the default font size 12. A rejected call changes nothing. The document, path, flag and title are untouched. |
| `PromptRenderer.OpenEditSave` | renderer.mjs:131-164 | Opening an encrypted file, editing it and saving it under the same passphrase leaves the edited plain text in the editor, under the opened path, clean, so a close request is answered yes without asking. |
| `InlineRenderer.Session.constructor` | renderer.js:16-18 | A new session has no path, is clean and is titled `EncryptPad`, as set by the final `setDirty(false)`. |
| `InlineRenderer.Session.SetDirty` | renderer.js:30-34 | Sets the flag and makes the title describe it and the path. Nothing else changes. |
| `InlineRenderer.Session.SetValue` | renderer.js:50 | Every change of the editor's value marks the session dirty. |
| `InlineRenderer.Session.Edit` | renderer.js:50 | An edit leaves the text in the editor and marks the session dirty. |
| `InlineRenderer.Session.DoNew` | renderer.js:60-65 | When dirty and the discard is refused, nothing changes. Otherwise the editor is empty, there is no path and the session is clean. |
| `InlineRenderer.Session.DoOpen` | renderer.js:67-73 | Cancel changes nothing. Otherwise the file's text is loaded as it is, the path is the file's and the session is clean. |
| `InlineRenderer.Session.DoSave` | renderer.js:75-81 | The editor's text goes to `saveFile` unencrypted, with no target for "save as". A cancelled save changes nothing, and a completed one sets the path and cleans the session. |
| `InlineRenderer.Session.DoEncrypt` | renderer.js:83-95 | An empty passphrase changes nothing and asks for one, and a failing encrypt changes nothing and raises the encryption alert. Otherwise the editor holds the armored text of its old text under the current settings, the session is dirty and the path is kept. |
| `InlineRenderer.Session.DoDecrypt` | renderer.js:97-109 | An empty passphrase changes nothing and asks for one, and a failing decrypt changes nothing and raises the decryption alert. Otherwise the editor holds the decrypted text, the session is dirty and the path is kept. |
| `InlineRenderer.Session.OnRequestClose` | renderer.js:131-138 | Closing is allowed exactly when the session is clean or the user confirms. |
| `InlineRenderer.Session.SaveSettings` | renderer.js:161-179 | Only a "save" close whose `setSettings` call succeeds stores the main process's answer to the normalised form, with the default font size 15. A rejected call changes nothing. The document, path, flag and title are untouched. |
| `InlineRenderer.EncryptThenDecrypt` | renderer.js:83-109 | With a library whose decryption inverts its encryption, encrypting and then decrypting in place gives the editor its text back with no alert. The session stays dirty and keeps its path. |

## Left out

- The OpenPGP library itself is not modelled: message creation, armor, S2K key derivation, AEAD and compression. It is a function-valued parameter whose answer is text or an error message.
- The library's randomness is not modelled: it is a function of its arguments, whereas `openpgp.encrypt` draws a fresh salt and session key on every call, so two real encryptions of the same text give different armored text. Properties about encryption say which arguments the library is called with, not that its answers coincide.
- The main process, `main.mjs`, is not part of this model: the file dialogs, file I/O, settings storage and the close handshake's receiving side. Its answers are parameters. `vite.config.js` is not part of this model either.
- A rejected `openFile` or `saveFile` call is not a separate answer. `readFile` (main.mjs:133) and `writeFile` (main.mjs:150) can reject, and the rejection surfaces at `await window.api.openFile()` (renderer.mjs:132, renderer.js:68) or `await window.api.saveFile(...)` (renderer.mjs:160, renderer.js:77). The action then ends with the session unchanged and no alert, which is exactly the state `OpenCanceled` and `SaveCanceled` leave, so those answers stand for it. A rejected `setSettings` is modelled: its answer is None, and `SaveSettings` then changes nothing.
- The asynchronous ordering of awaited calls is not modelled: each action runs to completion before anything else happens. The source allows interleaving. While `doSave` awaits `encryptText` or `saveFile` (renderer.mjs:154 and 160, renderer.js:77), keystrokes still mark the session dirty. The final `setDirty(false)` then marks it clean although those edits were never saved. The model cannot show this.
- CodeMirror is left out: editor construction, extensions, themes and `cm.refresh`. The document is a string. The normalisation of `\r\n` and `\r` to `\n` is not modelled, so the line and column functions count only `\n`.
- The DOM is left out: the status-bar elements, the dialogs and the passphrase prompt (its answer is a parameter), `alert` (its text is an out-parameter) and `console.error`.
- `updateThemeVars`, `getEditorTheme`, `applySystemThemeHint` and `openSettings` are left out. They write CSS variables, fonts and form fields. In renderer.mjs, `updateThemeVars` also rebuilds the editor with the same text (renderer.mjs:89-92). The rebuilt editor starts with the cursor at offset 0 and an empty undo history, which the model does not capture. The document, the path and the dirty flag stay unchanged, as `PromptRenderer.Session.SaveSettings` states.
- Listener removal and re-registration in `onAction` and `onRequestClose` are not modelled: only the key each channel delivers is.
- `Text.Column`: the model counts offsets in Unicode characters, while CodeMirror's offsets count UTF-16 code units. A character outside the Basic Multilingual Plane, such as an emoji, counts one in the model and two in the source, so the column differs after one.
- `Text.Upper`: models `toUpperCase` on ASCII letters only. Non-ASCII case mapping, including length-changing mappings such as `ß`, is not modelled.
- `Preferences.Normalise`: `Number(...)` is modelled on integers, with None standing for NaN. Fractional and exponent forms of the font size and iteration count are not modelled.
- `Status.Title`: the separator between name and path is kept as the three characters the source file actually contains, an em dash whose UTF-8 bytes were decoded as Windows-1252.
- `PromptRenderer.Session.StatusRight` and `InlineRenderer.Session.StatusRight` carry no contract of their own. They are covered by the `Status.PromptStatus…` and `Status.InlineStatus…` lemmas on the line, column and crypto label.
