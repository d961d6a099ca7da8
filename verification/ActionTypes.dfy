/** The types of action, their names and the other names that models use for them. */
module ActionTypes {
  import opened Wrappers
  import opened Text

  datatype Kind =
    | Tap | LongPress | DoubleTap | Drag | Swipe | Scroll | ClickMulti | ClickThenType
    | InputText | Hotkey | Screenshot | Wait
    | OpenApp | OpenDeeplink | OpenIntent | AdbCommand | CloseApp | Back | Home | Enter | AppSwitch | Finish
    | RequestIntervention

  function Name(kind: Kind): string {
    match kind
    case Tap => "tap"
    case LongPress => "long_press"
    case DoubleTap => "double_tap"
    case Drag => "drag"
    case Swipe => "swipe"
    case Scroll => "scroll"
    case ClickMulti => "click_multi"
    case ClickThenType => "click_then_type"
    case InputText => "input_text"
    case Hotkey => "hotkey"
    case Screenshot => "screenshot"
    case Wait => "wait"
    case OpenApp => "open_app"
    case OpenDeeplink => "open_deeplink"
    case OpenIntent => "open_intent"
    case AdbCommand => "adb_command"
    case CloseApp => "close_app"
    case Back => "back"
    case Home => "home"
    case Enter => "enter"
    case AppSwitch => "app_switch"
    case Finish => "done"
    case RequestIntervention => "request_intervention"
  }

  function Aliased(name: string): Option<Kind> {
    if name == "click" then Some(Tap)
    else if name == "type" then Some(InputText)
    else if name == "key" || name == "press" then Some(Hotkey)
    else if name == "long_click" then Some(LongPress)
    else if name == "double_click" then Some(DoubleTap)
    else if name == "keyboard_enter" || name == "return" then Some(Enter)
    else if name == "navigate_back" then Some(Back)
    else if name == "navigate_home" then Some(Home)
    else if name == "recents" || name == "recent_apps" then Some(AppSwitch)
    else None
  }

  function NamedGesture(name: string): Option<Kind> {
    if name == "tap" then Some(Tap)
    else if name == "long_press" then Some(LongPress)
    else if name == "double_tap" then Some(DoubleTap)
    else if name == "drag" then Some(Drag)
    else if name == "swipe" then Some(Swipe)
    else if name == "scroll" then Some(Scroll)
    else if name == "click_multi" then Some(ClickMulti)
    else if name == "click_then_type" then Some(ClickThenType)
    else if name == "input_text" then Some(InputText)
    else if name == "hotkey" then Some(Hotkey)
    else if name == "screenshot" then Some(Screenshot)
    else if name == "wait" then Some(Wait)
    else None
  }

  function NamedLaunch(name: string): Option<Kind> {
    if name == "open_app" then Some(OpenApp)
    else if name == "open_deeplink" then Some(OpenDeeplink)
    else if name == "open_intent" then Some(OpenIntent)
    else if name == "adb_command" then Some(AdbCommand)
    else if name == "close_app" then Some(CloseApp)
    else None
  }

  function NamedOther(name: string): Option<Kind> {
    if name == "back" then Some(Back)
    else if name == "home" then Some(Home)
    else if name == "enter" then Some(Enter)
    else if name == "app_switch" then Some(AppSwitch)
    else if name == "done" then Some(Finish)
    else if name == "request_intervention" then Some(RequestIntervention)
    else None
  }

  function Named(name: string): Option<Kind> {
    if NamedGesture(name).Some? then NamedGesture(name)
    else if NamedLaunch(name).Some? then NamedLaunch(name)
    else NamedOther(name)
  }

  /** An alias wins over a name. */
  function KindOf(name: string): Option<Kind> {
    if Aliased(name).Some? then Aliased(name) else Named(name)
  }

  predicate LowerWord(s: string) {
    forall c | c in s :: 'a' <= c <= 'z' || c == '_'
  }

  lemma NamesAreLowerWords(kind: Kind)
    ensures LowerWord(Name(kind)) && Name(kind) != ""
  {
    match kind
    case _ =>
  }

  lemma NamesAreNamed(kind: Kind)
    ensures Named(Name(kind)) == Some(kind)
  {
    if IsGesture(kind) {
      GesturesAreNamed(kind);
    } else if IsLaunch(kind) {
      LaunchesAreNamed(kind);
    } else {
      OthersAreNamed(kind);
    }
  }

  predicate IsGesture(kind: Kind) {
    kind.Tap? || kind.LongPress? || kind.DoubleTap? || kind.Drag? || kind.Swipe? || kind.Scroll?
    || kind.ClickMulti? || kind.ClickThenType? || kind.InputText? || kind.Hotkey? || kind.Screenshot? || kind.Wait?
  }

  lemma GesturesAreNamed(kind: Kind)
    requires IsGesture(kind)
    ensures Named(Name(kind)) == Some(kind)
  {
  }

  predicate IsLaunch(kind: Kind) {
    kind.OpenApp? || kind.OpenDeeplink? || kind.OpenIntent? || kind.AdbCommand? || kind.CloseApp?
  }

  lemma LaunchesAreNamed(kind: Kind)
    requires IsLaunch(kind)
    ensures Named(Name(kind)) == Some(kind)
  {
  }

  lemma OthersAreNamed(kind: Kind)
    requires !IsGesture(kind) && !IsLaunch(kind)
    ensures Named(Name(kind)) == Some(kind)
  {
  }

  lemma NamesAreNotAliases(kind: Kind)
    ensures Aliased(Name(kind)) == None
  {
    match kind
    case _ =>
  }

  lemma LowerWordsAreStripped(s: string)
    requires LowerWord(s)
    ensures Strip(s) == s
  {
    assert s != "" ==> s[0] in s && s[|s| - 1] in s;
    StripIsIdentity(s);
  }
}
