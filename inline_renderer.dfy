/**
 * The document session of renderer.js. Files are opened and saved as they
 * are; encryption is an explicit action that replaces the editor's text with
 * the armored text (and decryption the reverse), using the passphrase typed
 * into the toolbar field.
 */
module InlineRenderer {
  import opened Wrappers
  import opened CryptoOptions
  import opened Status
  import opened Preferences
  import opened Bridge

  /** The session: the editor's document, the file path, the dirty flag, the window title and the settings. */
  class Session {
    var doc: string
    var currentPath: Option<string>
    var dirty: bool
    var title: string
    var settings: Settings

    /** The window title describes the current flags and path. */
    ghost predicate TitleCurrent()
      reads this
    {
      title == Title(dirty, currentPath)
    }

    /** Start-up ends with `setDirty(false)`: no path, not dirty, and the bare application name as title. */
    constructor (stored: Settings, initialDoc: string)
      ensures doc == initialDoc && currentPath == None && !dirty && settings == stored
      ensures TitleCurrent() && title == AppName
    {
      doc := initialDoc;
      currentPath := None;
      settings := stored;
      dirty := false;
      title := Title(false, None);
    }

    /** `setDirty(flag)`: sets the flag and rewrites the title from it. */
    method SetDirty(flag: bool)
      modifies this
      ensures dirty == flag && TitleCurrent()
      ensures doc == old(doc) && currentPath == old(currentPath) && settings == old(settings)
    {
      dirty := flag;
      title := Title(dirty, currentPath);
    }

    /** `cm.setValue(text)`: the editor's change event marks the session dirty. */
    method SetValue(text: string)
      modifies this
      ensures doc == text && dirty && TitleCurrent()
      ensures currentPath == old(currentPath) && settings == old(settings)
    {
      doc := text;
      SetDirty(true);
    }

    /** A user edit that leaves `text` in the editor. */
    method Edit(text: string)
      modifies this
      ensures doc == text && dirty && TitleCurrent()
      ensures currentPath == old(currentPath) && settings == old(settings)
    {
      SetValue(text);
    }

    /** `doNew`; `discard` is the answer to the confirm, asked only when dirty. */
    method DoNew(discard: bool)
      modifies this
      ensures old(dirty) && !discard ==> unchanged(this)
      ensures !(old(dirty) && !discard) ==>
                doc == "" && currentPath == None && !dirty && TitleCurrent() && settings == old(settings)
    {
      if dirty && !discard {
        return;
      }
      SetValue("");
      currentPath := None;
      SetDirty(false);
    }

    /** `doOpen`: the file's text goes into the editor as it is, without any decryption. */
    method DoOpen(res: OpenResult)
      modifies this
      ensures res.OpenCanceled? ==> unchanged(this)
      ensures res.Opened? ==>
                && doc == res.content && currentPath == Some(res.filePath) && !dirty && TitleCurrent()
                && settings == old(settings)
    {
      if res.OpenCanceled? {
        return;
      }
      SetValue(res.content);
      currentPath := Some(res.filePath);
      SetDirty(false);
    }

    /** `doSave(saveAs)`: the editor's text is written as it is; `request` is what was handed to `saveFile`. */
    method DoSave(saveAs: bool, saveFile: SaveFile) returns (request: SaveRequest)
      modifies this
      ensures request == SaveRequest(old(doc), if saveAs then None else old(currentPath))
      ensures saveFile(request).SaveCanceled? ==> unchanged(this)
      ensures saveFile(request).Saved? ==>
                && currentPath == Some(saveFile(request).filePath) && !dirty && TitleCurrent()
                && doc == old(doc) && settings == old(settings)
    {
      request := SaveRequest(doc, if saveAs then None else currentPath);
      var res := saveFile(request);
      if res.SaveCanceled? {
        return;
      }
      currentPath := Some(res.filePath);
      SetDirty(false);
    }

    /**
     * `doEncrypt` with `pwd` in the passphrase field: the editor's text is
     * replaced by its encryption under the current settings.
     */
    method DoEncrypt(pwd: string, pgp: PgpEncrypt) returns (alert: Option<string>)
      modifies this
      ensures pwd == "" ==> unchanged(this) && alert == Some(EnterPassphraseAlert)
      ensures pwd != "" && EncryptText(pgp, old(doc), pwd, old(settings).crypto).Failure? ==>
                && unchanged(this)
                && alert == Some(EncryptFailedAlert(EncryptText(pgp, old(doc), pwd, old(settings).crypto).error))
      ensures pwd != "" && EncryptText(pgp, old(doc), pwd, old(settings).crypto).Success? ==>
                && doc == EncryptText(pgp, old(doc), pwd, old(settings).crypto).value
                && dirty && TitleCurrent() && alert == None
                && currentPath == old(currentPath) && settings == old(settings)
    {
      if pwd == "" {
        alert := Some(EnterPassphraseAlert);
        return;
      }
      var armored := EncryptText(pgp, doc, pwd, settings.crypto);
      if armored.Failure? {
        alert := Some(EncryptFailedAlert(armored.error));
        return;
      }
      alert := None;
      SetValue(armored.value);
      SetDirty(true);
    }

    /**
     * `doDecrypt` with `pwd` in the passphrase field: the editor's text is
     * replaced by its decryption; the settings play no part.
     */
    method DoDecrypt(pwd: string, pgp: PgpDecrypt) returns (alert: Option<string>)
      modifies this
      ensures pwd == "" ==> unchanged(this) && alert == Some(EnterPassphraseAlert)
      ensures pwd != "" && DecryptText(pgp, old(doc), pwd).Failure? ==>
                && unchanged(this)
                && alert == Some(DecryptFailedAlert(DecryptText(pgp, old(doc), pwd).error))
      ensures pwd != "" && DecryptText(pgp, old(doc), pwd).Success? ==>
                && doc == DecryptText(pgp, old(doc), pwd).value
                && dirty && TitleCurrent() && alert == None
                && currentPath == old(currentPath) && settings == old(settings)
    {
      if pwd == "" {
        alert := Some(EnterPassphraseAlert);
        return;
      }
      var plain := DecryptText(pgp, doc, pwd);
      if plain.Failure? {
        alert := Some(DecryptFailedAlert(plain.error));
        return;
      }
      alert := None;
      SetValue(plain.value);
      SetDirty(true);
    }

    /** The close handshake: the answer sent back to the main process; `answer` is the confirm, asked only when dirty. */
    method OnRequestClose(answer: bool) returns (ok: bool)
      ensures ok <==> !dirty || answer
    {
      if dirty {
        ok := answer;
      } else {
        ok := true;
      }
    }

    /**
     * The settings dialog's close handler: on "save", the normalised form is
     * stored and the main process's answer becomes the settings. `setSettings`
     * answers None when the call is rejected, which ends the handler with
     * nothing changed.
     */
    method SaveSettings(returnValue: string, form: Form, setSettings: Settings -> Option<Settings>)
      modifies this
      ensures returnValue != "save" || setSettings(Normalise(form, InlineDefaultFontSize)).None? ==> unchanged(this)
      ensures returnValue == "save" && setSettings(Normalise(form, InlineDefaultFontSize)).Some? ==>
                && settings == setSettings(Normalise(form, InlineDefaultFontSize)).value
                && doc == old(doc) && currentPath == old(currentPath)
                && dirty == old(dirty) && title == old(title)
    {
      if returnValue != "save" {
        return;
      }
      var stored := setSettings(Normalise(form, InlineDefaultFontSize));
      if stored.None? {
        return;
      }
      settings := stored.value;
    }

    /** The left status text. */
    function StatusLeft(): string
      reads this
    {
      InlineStatusLeft(currentPath, dirty)
    }

    /** The right status text for the cursor at 0-based line `line` and character `ch`. */
    function StatusRight(line: nat, ch: nat): string
      reads this
    {
      InlineStatusRight(doc, line, ch, settings.crypto)
    }
  }

  /**
   * Encrypting and then decrypting in place, with a library that inverts its
   * own encryption, gives the editor its text back; the session stays dirty
   * because the file on disk was never touched.
   */
  method EncryptThenDecrypt(s: Session, pwd: string, pgpEncrypt: PgpEncrypt, pgpDecrypt: PgpDecrypt)
    returns (encryptAlert: Option<string>, decryptAlert: Option<string>)
    requires pwd != ""
    requires EncryptText(pgpEncrypt, s.doc, pwd, s.settings.crypto).Success?
    requires DecryptText(pgpDecrypt, EncryptText(pgpEncrypt, s.doc, pwd, s.settings.crypto).value, pwd) == Success(s.doc)
    modifies s
    ensures s.doc == old(s.doc) && s.dirty && s.currentPath == old(s.currentPath)
    ensures encryptAlert == None && decryptAlert == None
  {
    encryptAlert := s.DoEncrypt(pwd, pgpEncrypt);
    decryptAlert := s.DoDecrypt(pwd, pgpDecrypt);
  }
}
