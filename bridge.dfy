/**
 * The preload bridge's menu-action channels and the shapes of its file calls,
 * with the command each renderer runs for an action key.
 */
module Bridge {
  import opened Wrappers

  /** The action keys `onAction` registers a listener for, in order. */
  const ActionKeys: seq<string> := ["new", "open", "save", "saveAs", "settings"]

  const ChannelPrefix := "action:"

  /** The IPC channel of an action key. */
  function Channel(key: string): string {
    ChannelPrefix + key
  }

  /** The key handed to the renderer's callback when a message arrives on `channel`; None when nothing listens. */
  function Dispatch(channel: string): (key: Option<string>)
    ensures key.Some? ==> key.value in ActionKeys && channel == Channel(key.value)
  {
    if |channel| >= |ChannelPrefix| && channel[..|ChannelPrefix|] == ChannelPrefix
       && channel[|ChannelPrefix|..] in ActionKeys
    then Some(channel[|ChannelPrefix|..])
    else None
  }

  /** Each registered channel dispatches its own key, and no other channel dispatches anything. */
  lemma DispatchExactly(key: string)
    ensures Dispatch(Channel(key)) == (if key in ActionKeys then Some(key) else None)
  {
    assert Channel(key)[..|ChannelPrefix|] == ChannelPrefix;
    assert Channel(key)[|ChannelPrefix|..] == key;
  }

  /** What a renderer does for an action key. */
  datatype Command = New | Open | Save | SaveAs | Encrypt | Decrypt | OpenSettings

  /** The action key that names a command: each renderer runs the action of the key's own name. */
  function CommandKey(c: Command): string {
    match c
    case New => "new"
    case Open => "open"
    case Save => "save"
    case SaveAs => "saveAs"
    case OpenSettings => "settings"
    case Encrypt => "encrypt"
    case Decrypt => "decrypt"
  }

  /** renderer.mjs's callback: exactly the registered keys run a command, the one of the key's own name, never encrypt or decrypt. */
  function PromptRoute(key: string): (command: Option<Command>)
    ensures command.Some? <==> key in ActionKeys
    ensures command.Some? ==> CommandKey(command.value) == key
    ensures command.Some? ==> command.value !in {Encrypt, Decrypt}
  {
    if key == "new" then Some(New)
    else if key == "open" then Some(Open)
    else if key == "save" then Some(Save)
    else if key == "saveAs" then Some(SaveAs)
    else if key == "settings" then Some(OpenSettings)
    else None
  }

  /** renderer.js's callback, which also names `encrypt` and `decrypt`. */
  function InlineRoute(key: string): (command: Option<Command>)
    ensures command.Some? <==> key in ActionKeys || key == "encrypt" || key == "decrypt"
    ensures command.Some? ==> CommandKey(command.value) == key
    ensures command == Some(Encrypt) <==> key == "encrypt"
    ensures command == Some(Decrypt) <==> key == "decrypt"
    ensures key in ActionKeys ==> command == PromptRoute(key)
  {
    if key == "encrypt" then Some(Encrypt)
    else if key == "decrypt" then Some(Decrypt)
    else PromptRoute(key)
  }

  /** Different keys never run the same command in either renderer. */
  lemma RoutesDistinct(k1: string, k2: string)
    ensures PromptRoute(k1).Some? && PromptRoute(k1) == PromptRoute(k2) ==> k1 == k2
    ensures InlineRoute(k1).Some? && InlineRoute(k1) == InlineRoute(k2) ==> k1 == k2
  {
  }

  /**
   * Every registered action reaches a command in both renderers and the same
   * one; the menu can never reach renderer.js's encrypt and decrypt, since no
   * channel carries those keys.
   */
  lemma MenuCommands(channel: string)
    ensures Dispatch(channel).Some? ==>
              && PromptRoute(Dispatch(channel).value).Some?
              && InlineRoute(Dispatch(channel).value) == PromptRoute(Dispatch(channel).value)
              && InlineRoute(Dispatch(channel).value) !in {Some(Encrypt), Some(Decrypt)}
  {
  }

  /** What the main process answers to `openFile`. */
  datatype OpenResult = OpenCanceled | Opened(filePath: string, content: string)

  /** The payload of `saveFile`: a null target asks the main process for a save dialog. */
  datatype SaveRequest = SaveRequest(content: string, filePath: Option<string>)

  /** What the main process answers to `saveFile`. */
  datatype SaveResult = SaveCanceled | Saved(filePath: string)

  type SaveFile = SaveRequest -> SaveResult
}
