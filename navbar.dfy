/** The navigation bar: the avatar initials and the session gate of the logout handler. */
module Navbar {
  import opened Common
  import Text

  /** `s.split(' ')`: the pieces between single spaces. `k` spaces give `k + 1` pieces; a piece is empty
      where two spaces meet or at a leading or trailing space. */
  function Split(s: string): (parts: seq<string>)
    ensures |parts| >= 1
    ensures forall i, j :: 0 <= i < |parts| && 0 <= j < |parts[i]| ==> parts[i][j] != ' '
  {
    if s == [] then [""]
    else
      var rest := Split(s[1..]);
      if s[0] == ' ' then [""] + rest
      else [[s[0]] + rest[0]] + rest[1..]
  }

  /** `parts.join(' ')`. */
  function Join(parts: seq<string>): string
  {
    if parts == [] then ""
    else if |parts| == 1 then parts[0]
    else parts[0] + " " + Join(parts[1..])
  }

  /** Splitting loses nothing: joining the pieces with spaces gives the string back. */
  lemma {:induction false} JoinSplit(s: string)
    ensures Join(Split(s)) == s
  {
    if s != [] {
      var rest := Split(s[1..]);
      JoinSplit(s[1..]);
      if s[0] == ' ' {
        assert Split(s) == [""] + rest;
        assert ([""] + rest)[1..] == rest;
        assert s == "" + " " + s[1..];
      } else {
        var parts := [[s[0]] + rest[0]] + rest[1..];
        assert Split(s) == parts;
        if |rest| > 1 {
          assert parts[1..] == rest[1..];
          assert Join(rest) == rest[0] + " " + Join(rest[1..]);
        }
      }
    }
  }

  /** `part[0]` as `join('')` renders it: the first character, or nothing for an empty piece. */
  function FirstChar(part: string): string
  {
    if part == [] then [] else [part[0]]
  }

  /** `parts.map(part => part[0]).join('')`. */
  function FirstChars(parts: seq<string>): (r: string)
    ensures |r| <= |parts|
    ensures (forall i :: 0 <= i < |parts| ==> parts[i] != []) ==>
      |r| == |parts| && forall i :: 0 <= i < |r| ==> r[i] == parts[i][0]
  {
    if parts == [] then [] else FirstChar(parts[0]) + FirstChars(parts[1..])
  }

  /** The characters of `s` that begin a word: a non-space at the start of `s` (when `atBoundary`)
      or right after a space. */
  function WordStartsFrom(s: string, atBoundary: bool): string
  {
    if s == [] then []
    else (if atBoundary && s[0] != ' ' then [s[0]] else []) + WordStartsFrom(s[1..], s[0] == ' ')
  }

  /** The first letter of every space-separated word of `s`, in order. */
  function WordStarts(s: string): string
  {
    WordStartsFrom(s, true)
  }

  lemma {:induction false} FirstCharsOfSplitFrom(s: string)
    ensures FirstChars(Split(s)) == WordStartsFrom(s, true)
    ensures FirstChars(Split(s)[1..]) == WordStartsFrom(s, false)
  {
    if s != [] {
      var rest := Split(s[1..]);
      FirstCharsOfSplitFrom(s[1..]);
      if s[0] == ' ' {
        assert Split(s) == [""] + rest;
        assert ([""] + rest)[1..] == rest;
      } else {
        var parts := [[s[0]] + rest[0]] + rest[1..];
        assert Split(s) == parts;
        assert parts[1..] == rest[1..];
        assert FirstChars(parts) == [s[0]] + FirstChars(rest[1..]);
      }
    }
  }

  /** Taking the first character of every piece of the split is taking the first letter of every
      word: the empty pieces that repeated spaces produce contribute nothing. */
  lemma FirstCharsOfSplit(s: string)
    ensures FirstChars(Split(s)) == WordStarts(s)
  {
    FirstCharsOfSplitFrom(s);
  }

  /** `getInitials`: "U" for an absent or empty name; otherwise the first letters of its words,
      upper-cased, cut to at most two characters. */
  function GetInitials(name: Option<string>): (r: string)
    ensures name.None? || name.value == "" ==> r == "U"
    ensures |r| <= 2
    ensures forall i :: 0 <= i < |r| ==> !('a' <= r[i] <= 'z')
    ensures name.Some? && name.value != "" ==>
      var starts := Text.Upper(WordStarts(name.value));
      r == if |starts| <= 2 then starts else starts[..2]
  {
    if name.None? || name.value == "" then "U"
    else
      var upper := Text.Upper(FirstChars(Split(name.value)));
      FirstCharsOfSplit(name.value);
      if |upper| <= 2 then upper else upper[..2]
  }

  /** A run of spaces begins no word. */
  lemma {:induction false} SpacesHaveNoWordStarts(s: string, atBoundary: bool)
    requires forall i :: 0 <= i < |s| ==> s[i] == ' '
    ensures WordStartsFrom(s, atBoundary) == []
  {
    if s != [] {
      SpacesHaveNoWordStarts(s[1..], true);
    }
  }

  /** A non-empty name made only of spaces is truthy, so it gets no "U" fallback; it has no word, so it
      gets no initials either: the avatar shows nothing. */
  lemma SpacesOnlyNameHasNoInitials(name: string)
    requires name != "" && forall i :: 0 <= i < |name| ==> name[i] == ' '
    ensures GetInitials(Some(name)) == ""
  {
    SpacesHaveNoWordStarts(name, true);
  }

  /** What the logout handler does, in order. */
  datatype LogoutEvent = GetSession | SignOut | Toast(notice: Notice) | Navigate(path: string)

  /** The answer of the sign-out call: success, or an error with its message. */
  datatype SignOutResult = SignedOut | SignOutError(message: string)

  const NotLoggedIn := Notice("Logout failed", "You are not logged in.", Destructive)
  const LoggedOut := Notice("Logged out successfully", "You have been signed out of your account", Default)

  /** The toast of a failed sign-out: the error's message, or a fallback when it is empty. */
  function SignOutFailed(message: string): Notice
  {
    Notice("Logout failed", if message == "" then "Something went wrong" else message, Destructive)
  }

  /** The number of toasts in a trace. */
  function ToastCount(trace: seq<LogoutEvent>): nat
  {
    if trace == [] then 0 else (if trace[0].Toast? then 1 else 0) + ToastCount(trace[1..])
  }

  lemma {:induction false} ToastCountConcat(a: seq<LogoutEvent>, b: seq<LogoutEvent>)
    ensures ToastCount(a + b) == ToastCount(a) + ToastCount(b)
  {
    if a == [] {
      assert a + b == b;
    } else {
      assert (a + b)[1..] == a[1..] + b;
      ToastCountConcat(a[1..], b);
    }
  }

  /** `handleLogout`: it asks for the session first; without one it shows "Logout failed" and never
      signs out. With one it signs out and then either confirms and navigates home, or reports the
      error. Every run shows exactly one toast. */
  method HandleLogout(hasSession: bool, signOutResult: SignOutResult) returns (trace: seq<LogoutEvent>)
    ensures |trace| >= 2 && trace[0] == GetSession
    ensures SignOut in trace <==> hasSession
    ensures ToastCount(trace) == 1
    ensures !hasSession ==> trace == [GetSession, Toast(NotLoggedIn)]
    ensures hasSession && signOutResult.SignedOut? ==> trace == [GetSession, SignOut, Toast(LoggedOut), Navigate("/")]
    ensures hasSession && signOutResult.SignOutError? ==>
      trace == [GetSession, SignOut, Toast(SignOutFailed(signOutResult.message))]
  {
    trace := [GetSession];
    if !hasSession {
      ToastCountConcat(trace, [Toast(NotLoggedIn)]);
      trace := trace + [Toast(NotLoggedIn)];
      return;
    }
    ToastCountConcat(trace, [SignOut]);
    trace := trace + [SignOut];
    match signOutResult {
      case SignedOut =>
        ToastCountConcat([Toast(LoggedOut)], [Navigate("/")]);
        ToastCountConcat(trace, [Toast(LoggedOut), Navigate("/")]);
        trace := trace + [Toast(LoggedOut), Navigate("/")];
      case SignOutError(message) =>
        ToastCountConcat(trace, [Toast(SignOutFailed(message))]);
        trace := trace + [Toast(SignOutFailed(message))];
    }
  }
}
