/**
 * The document session of renderer.mjs. The passphrase is asked for on every
 * open and save: a non-empty answer decrypts the opened file or encrypts the
 * saved copy, an empty or cancelled answer reads or writes plain text. The
 * editor always holds plain text.
 */
module PromptRenderer {
  import opened Wrappers
  import opened CryptoOptions
  import opened Status
  import opened Preferences
  import opened Bridge

  /** The session: the editor's document, the file path, the dirty flag, the window title and the settings. */
  class Session {
    var doc: string
    var currentPath: Option<string>
    var dirty: bool
    var title: string
    var settings: Settings

    /** The window title describes the current flags and path. */
    ghost predicate TitleCurrent()
      reads this
    {
      title == Title(dirty, currentPath)
    }

    /** Start-up: an empty editor, no path, not dirty; the page keeps its own title until the first `setDirty`. */
    constructor (stored: Settings, pageTitle: string)
      ensures doc == "" && currentPath == None && !dirty
      ensures title == pageTitle && settings == stored
    {
      doc := "";
      currentPath := None;
      dirty := false;
      title := pageTitle;
      settings := stored;
    }

    /** `setDirty(flag)`: sets the flag and rewrites the title from it. */
    method SetDirty(flag: bool)
      modifies this
      ensures dirty == flag && TitleCurrent()
      ensures doc == old(doc) && currentPath == old(currentPath) && settings == old(settings)
    {
      dirty := flag;
      title := Title(dirty, currentPath);
    }

    /**
     * `view.dispatch` replacing the whole document with `text`. The update
     * listener marks the session dirty unless the change is empty, which it is
     * only when both the old document and `text` are empty.
     */
    method ReplaceDocument(text: string)
      modifies this
      ensures doc == text && currentPath == old(currentPath) && settings == old(settings)
      ensures old(doc) == "" && text == "" ==> dirty == old(dirty) && title == old(title)
      ensures old(doc) != "" || text != "" ==> dirty && TitleCurrent()
    {
      var changed := doc != "" || text != "";
      doc := text;
      if changed {
        SetDirty(true);
      }
    }

    /** A user edit that leaves `text` in the editor. */
    method Edit(text: string)
      modifies this
      ensures doc == text && dirty && TitleCurrent()
      ensures currentPath == old(currentPath) && settings == old(settings)
    {
      doc := text;
      SetDirty(true);
    }

    /** `doNew`; `discard` is the answer to the confirm, asked only when dirty. */
    method DoNew(discard: bool)
      modifies this
      ensures old(dirty) && !discard ==> unchanged(this)
      ensures !(old(dirty) && !discard) ==>
                doc == "" && currentPath == None && !dirty && TitleCurrent() && settings == old(settings)
    {
      if dirty && !discard {
        return;
      }
      ReplaceDocument("");
      currentPath := None;
      SetDirty(false);
    }

    /**
     * `doOpen`: `res` is the main process's answer, `passphrase` the answer of
     * the passphrase dialog (None when it was cancelled) and `pgp` the library.
     */
    method DoOpen(res: OpenResult, passphrase: Option<string>, pgp: PgpDecrypt) returns (alert: Option<string>)
      modifies this
      ensures res.OpenCanceled? ==> unchanged(this) && alert == None
      ensures res.Opened? && Truthy(passphrase) && DecryptText(pgp, res.content, passphrase.value).Failure? ==>
                && unchanged(this)
                && alert == Some(DecryptFailedAlert(DecryptText(pgp, res.content, passphrase.value).error))
      ensures res.Opened? && !Truthy(passphrase) ==>
                && doc == res.content
                && currentPath == Some(res.filePath) && !dirty && TitleCurrent()
                && settings == old(settings) && alert == None
      ensures res.Opened? && Truthy(passphrase) && DecryptText(pgp, res.content, passphrase.value).Success? ==>
                && doc == DecryptText(pgp, res.content, passphrase.value).value
                && currentPath == Some(res.filePath) && !dirty && TitleCurrent()
                && settings == old(settings) && alert == None
    {
      alert := None;
      if res.OpenCanceled? {
        return;
      }
      var content := res.content;
      if Truthy(passphrase) {
        var plain := DecryptText(pgp, res.content, passphrase.value);
        if plain.Failure? {
          alert := Some(DecryptFailedAlert(plain.error));
          return;
        }
        content := plain.value;
      }
      ReplaceDocument(content);
      currentPath := Some(res.filePath);
      SetDirty(false);
    }

    /** The text `doSave` hands to the main process: the document, encrypted when a passphrase was given. */
    static function Payload(text: string, passphrase: Option<string>, pgp: PgpEncrypt, crypto: Option<CryptoPrefs>): (r: Result<string, string>)
      ensures !Truthy(passphrase) ==> r == Success(text)
      ensures Truthy(passphrase) ==> r == pgp(text, passphrase.value, Resolve(crypto))
    {
      if Truthy(passphrase) then EncryptText(pgp, text, passphrase.value, crypto) else Success(text)
    }

    /**
     * `doSave(saveAs)`: only the saved copy is encrypted, never the editor's
     * document. `request` is what was handed to `saveFile`, if anything.
     */
    method DoSave(saveAs: bool, passphrase: Option<string>, pgp: PgpEncrypt, saveFile: SaveFile)
      returns (request: Option<SaveRequest>, alert: Option<string>)
      modifies this
      ensures doc == old(doc) && settings == old(settings)
      ensures var payload := Payload(old(doc), passphrase, pgp, old(settings).crypto);
              payload.Failure? ==>
                unchanged(this) && request == None && alert == Some(EncryptFailedAlert(payload.error))
      ensures var payload := Payload(old(doc), passphrase, pgp, old(settings).crypto);
              payload.Success? ==>
                && alert == None
                && request == Some(SaveRequest(payload.value, if saveAs then None else old(currentPath)))
                && (saveFile(request.value).SaveCanceled? ==> unchanged(this))
                && (saveFile(request.value).Saved? ==>
                      currentPath == Some(saveFile(request.value).filePath) && !dirty && TitleCurrent())
    {
      request, alert := None, None;
      var content := Payload(doc, passphrase, pgp, settings.crypto);
      if content.Failure? {
        alert := Some(EncryptFailedAlert(content.error));
        return;
      }
      request := Some(SaveRequest(content.value, if saveAs then None else currentPath));
      var res := saveFile(request.value);
      if res.SaveCanceled? {
        return;
      }
      currentPath := Some(res.filePath);
      SetDirty(false);
    }

    /** The close handshake: the answer sent back to the main process; `answer` is the confirm, asked only when dirty. */
    method OnRequestClose(answer: bool) returns (ok: bool)
      ensures ok <==> !dirty || answer
    {
      if dirty {
        ok := answer;
      } else {
        ok := true;
      }
    }

    /**
     * The settings dialog's close handler: on "save", the normalised form is
     * stored and the main process's answer becomes the settings; the editor is
     * rebuilt with the same document. `setSettings` answers None when the call
     * is rejected, which ends the handler with nothing changed.
     */
    method SaveSettings(returnValue: string, form: Form, setSettings: Settings -> Option<Settings>)
      modifies this
      ensures returnValue != "save" || setSettings(Normalise(form, PromptDefaultFontSize)).None? ==> unchanged(this)
      ensures returnValue == "save" && setSettings(Normalise(form, PromptDefaultFontSize)).Some? ==>
                && settings == setSettings(Normalise(form, PromptDefaultFontSize)).value
                && doc == old(doc) && currentPath == old(currentPath)
                && dirty == old(dirty) && title == old(title)
    {
      if returnValue != "save" {
        return;
      }
      var stored := setSettings(Normalise(form, PromptDefaultFontSize));
      if stored.None? {
        return;
      }
      settings := stored.value;
    }

    /** The left status text. */
    function StatusLeft(): string
      reads this
    {
      PromptStatusLeft(currentPath, dirty)
    }

    /** The right status text for the cursor at offset `head`. */
    function StatusRight(head: nat): string
      reads this
      requires head <= |doc|
    {
      PromptStatusRight(doc, head, settings.crypto)
    }
  }

  /**
   * A session of the editor: open an encrypted file, edit it, save it under
   * the same passphrase. The file ends up clean, under the opened path, while
   * the editor keeps the plain text.
   */
  method OpenEditSave(stored: Settings, res: OpenResult, passphrase: string, pgpDecrypt: PgpDecrypt, pgpEncrypt: PgpEncrypt,
                      edited: string, saveFile: SaveFile)
    returns (s: Session, closeOk: bool)
    requires res.Opened? && passphrase != ""
    requires DecryptText(pgpDecrypt, res.content, passphrase).Success?
    requires EncryptText(pgpEncrypt, edited, passphrase, stored.crypto).Success?
    requires saveFile(SaveRequest(EncryptText(pgpEncrypt, edited, passphrase, stored.crypto).value, Some(res.filePath))) == Saved(res.filePath)
    ensures s.doc == edited && s.currentPath == Some(res.filePath) && !s.dirty
    ensures s.title == Title(false, Some(res.filePath)) && s.settings == stored
    ensures closeOk
  {
    s := new Session(stored, "");
    var alert := s.DoOpen(res, Some(passphrase), pgpDecrypt);
    assert alert == None && s.currentPath == Some(res.filePath) && !s.dirty;
    s.Edit(edited);
    assert s.dirty && s.title == Title(true, Some(res.filePath));
    var request, alert2 := s.DoSave(false, Some(passphrase), pgpEncrypt, saveFile);
    assert request == Some(SaveRequest(EncryptText(pgpEncrypt, edited, passphrase, stored.crypto).value, Some(res.filePath)));
    closeOk := s.OnRequestClose(false);
  }
}
