/**
 * chat.client.views.LoginView, without its widgets: what pressing "Entrar"
 * does with the text typed. The user-data folder, its sub-folders and the
 * reading of each user.json are parameters; the error label is a field, and
 * the login callback is the sequence of users it was given.
 */
module LoginView {
  import opened Wrappers
  import opened Model
  import opened JavaStrings
  import ChatUtils

  const EmptyNameError := "Debe ingresar un nombre de usuario."
  const ReadError := "Error leyendo datos de usuario"

  /**
   * Reading a user.json: the user it holds (None for a JSON null), an I/O
   * error, or an unchecked exception (malformed JSON) that the handler does
   * not catch.
   */
  datatype ReadOutcome = ReadOk(user: Option<User>) | ReadFailed | ReadThrew

  /** The first folder whose name, cut at its first "__", is the entered name. */
  function FirstMatch(dirs: seq<string>, entered: string): (r: Option<nat>)
    ensures r.Some? ==> r.value < |dirs| && ChatUtils.GetBaseName(dirs[r.value]) == entered
    ensures r.Some? ==> forall k :: 0 <= k < r.value ==> ChatUtils.GetBaseName(dirs[k]) != entered
    ensures r.None? ==> forall k :: 0 <= k < |dirs| ==> ChatUtils.GetBaseName(dirs[k]) != entered
  {
    var names := BaseNames(dirs);
    FirstIndexFinds(names, entered, 0);
    FirstIndexFrom(names, entered, 0)
  }

  /** The base name of every folder of the listing, in listing order. */
  function BaseNames(dirs: seq<string>): (r: seq<string>)
    ensures |r| == |dirs|
    ensures forall k :: 0 <= k < |dirs| ==> r[k] == ChatUtils.GetBaseName(dirs[k])
  {
    if dirs == [] then [] else [ChatUtils.GetBaseName(dirs[0])] + BaseNames(dirs[1..])
  }

  /** The first position at or after `i` holding `x`. */
  function FirstIndexFrom(names: seq<string>, x: string, i: nat): (r: Option<nat>)
    requires i <= |names|
    decreases |names| - i
    ensures r.Some? ==> i <= r.value < |names|
  {
    if i == |names| then None
    else if names[i] == x then Some(i)
    else FirstIndexFrom(names, x, i + 1)
  }

  /** The search from `i` finds the first `x` at or after `i`, or reports that there is none. */
  lemma {:induction false} FirstIndexFinds(names: seq<string>, x: string, i: nat)
    requires i <= |names|
    decreases |names| - i
    ensures var r := FirstIndexFrom(names, x, i);
      && (r.Some? ==> names[r.value] == x)
      && (r.Some? ==> forall k :: i <= k < r.value ==> names[k] != x)
      && (r.None? ==> forall k :: i <= k < |names| ==> names[k] != x)
  {
    if i < |names| && names[i] != x {
      FirstIndexFinds(names, x, i + 1);
    }
  }

  /** A folder that matches, with no match before it, is the one found. */
  lemma FirstMatchIs(dirs: seq<string>, entered: string, i: nat)
    requires i < |dirs| && ChatUtils.GetBaseName(dirs[i]) == entered
    requires forall k :: 0 <= k < i ==> ChatUtils.GetBaseName(dirs[k]) != entered
    ensures FirstMatch(dirs, entered) == Some(i)
  {
  }

  /** With no matching folder, none is found. */
  lemma FirstMatchNone(dirs: seq<string>, entered: string)
    requires forall k :: 0 <= k < |dirs| ==> ChatUtils.GetBaseName(dirs[k]) != entered
    ensures FirstMatch(dirs, entered) == None
  {
  }

  /**
   * What a press of "Entrar" ends in: an error shown, a user handed to the
   * callback, or an exception that leaves the handler with nothing shown.
   */
  datatype Outcome = Refused(error: string) | LoggedIn(user: Option<User>) | Aborted

  /** The outcome of logging in with `typed`, as `handleLogin` decides it. */
  function Login(typed: string, userdataDir: string, dirs: Option<seq<string>>,
                 readUser: string -> ReadOutcome, sha1: string -> ChatUtils.Digest): (r: Outcome)
    ensures Trim(typed) == "" <==> r == Refused(EmptyNameError)
    ensures r.Refused? ==> r.error == EmptyNameError || r.error == ReadError
    ensures r.LoggedIn? && Trim(typed) != "" && (dirs.None? || FirstMatch(dirs.value, Trim(typed)).None?) ==>
              r.user.Some? && r.user.value.displayName == Some(Trim(typed))
    ensures r.LoggedIn? && Trim(typed) != "" && dirs.Some? && FirstMatch(dirs.value, Trim(typed)).Some? ==>
              readUser(userdataDir + "/" + dirs.value[FirstMatch(dirs.value, Trim(typed)).value] + "/user.json")
                == ReadOk(r.user)
  {
    var entered := Trim(typed);
    if entered == "" then Refused(EmptyNameError)
    else
      var found := if dirs.Some? then FirstMatch(dirs.value, entered) else None;
      match found
      case Some(k) =>
        (match readUser(userdataDir + "/" + dirs.value[k] + "/user.json")
         case ReadFailed => Refused(ReadError)
         case ReadThrew => Aborted
         case ReadOk(u) => LoggedIn(u))
      case None => LoggedIn(Some(NewUser(ChatUtils.EnsureUserExists(entered, userdataDir, sha1), Some(entered))))
  }

  /**
   * A blank name is refused; otherwise the user comes from the first folder
   * whose base name is the trimmed name; a failed read of its user.json
   * refuses and a read that throws aborts. With no such folder the user is
   * new, named by the safe name of the trimmed text and displayed as typed.
   */
  lemma LoginCases(typed: string, userdataDir: string, dirs: Option<seq<string>>,
                   readUser: string -> ReadOutcome, sha1: string -> ChatUtils.Digest)
    ensures var entered := Trim(typed);
      var r := Login(typed, userdataDir, dirs, readUser, sha1);
      && (entered == "" <==> r == Refused(EmptyNameError))
      && (r.Refused? ==> r.error == EmptyNameError || r.error == ReadError)
      && (r == Refused(ReadError) <==>
            entered != "" && dirs.Some?
            && (exists k :: 0 <= k < |dirs.value|
                  && ChatUtils.GetBaseName(dirs.value[k]) == entered
                  && readUser(userdataDir + "/" + dirs.value[k] + "/user.json") == ReadFailed
                  && forall j :: 0 <= j < k ==> ChatUtils.GetBaseName(dirs.value[j]) != entered))
      && (r == Aborted <==>
            entered != "" && dirs.Some?
            && (exists k :: 0 <= k < |dirs.value|
                  && ChatUtils.GetBaseName(dirs.value[k]) == entered
                  && readUser(userdataDir + "/" + dirs.value[k] + "/user.json") == ReadThrew
                  && forall j :: 0 <= j < k ==> ChatUtils.GetBaseName(dirs.value[j]) != entered))
      && (forall u: Option<User> :: r == LoggedIn(u) && dirs.Some? && FirstMatch(dirs.value, entered).Some? <==>
            entered != "" && dirs.Some?
            && (exists k :: 0 <= k < |dirs.value|
                  && ChatUtils.GetBaseName(dirs.value[k]) == entered
                  && readUser(userdataDir + "/" + dirs.value[k] + "/user.json") == ReadOk(u)
                  && forall j :: 0 <= j < k ==> ChatUtils.GetBaseName(dirs.value[j]) != entered))
  {
    var entered := Trim(typed);
    if entered != "" && dirs.Some? {
      var f := FirstMatch(dirs.value, entered);
      if f.Some? {
        forall k | 0 <= k < |dirs.value| && ChatUtils.GetBaseName(dirs.value[k]) == entered
          && (forall j :: 0 <= j < k ==> ChatUtils.GetBaseName(dirs.value[j]) != entered)
          ensures k == f.value
        {
        }
      }
    }
  }

  /**
   * A new user's username is the safe name of the entered text: the text
   * followed by "__" and six hexadecimal digits, and its base name is the
   * text again when the text holds no "__" and does not end in '_'.
   */
  lemma NewUserNamedAfterInput(typed: string, userdataDir: string, dirs: Option<seq<string>>,
                               readUser: string -> ReadOutcome, sha1: string -> ChatUtils.Digest)
    requires Trim(typed) != ""
    requires dirs.None? || FirstMatch(dirs.value, Trim(typed)).None?
    ensures var r := Login(typed, userdataDir, dirs, readUser, sha1);
      var entered := Trim(typed);
      && r.LoggedIn? && r.user.Some? && r.user.value.displayName == Some(entered)
      && r.user.value.username[..|entered|] == entered
      && |r.user.value.username| == |entered| + 8
      && (!Contains(entered, "__") && entered[|entered| - 1] != '_' ==>
            ChatUtils.GetBaseName(r.user.value.username) == entered)
  {
  }

  /**
   * Once a first login has created the folder for a name, the next login
   * with the same name finds a folder for it — provided the name holds no
   * "__" and does not end in '_', which the cut at "__" would lose.
   */
  lemma CreatedFolderIsFound(dirs: seq<string>, entered: string, userdataDir: string,
                             sha1: string -> ChatUtils.Digest)
    requires !Contains(entered, "__") && (entered == [] || entered[|entered| - 1] != '_')
    ensures FirstMatch(dirs + [ChatUtils.EnsureUserExists(entered, userdataDir, sha1)], entered).Some?
  {
    var created := ChatUtils.EnsureUserExists(entered, userdataDir, sha1);
    var all := dirs + [created];
    assert all[|dirs|] == created;
    assert ChatUtils.GetBaseName(all[|dirs|]) == entered;
  }

  class LoginView {
    /** The text of the error label. */
    var errorText: string
    /** The users handed to the login callback, in order. */
    var loggedIn: seq<Option<User>>

    constructor()
      ensures errorText == "" && loggedIn == []
    {
      errorText := "";
      loggedIn := [];
    }

    /**
     * `handleLogin`: `typed` is the text field, `dirs` the sub-folders of
     * `userdataDir` in listing order (None when it cannot be listed),
     * `readUser` what reading a user.json yields.
     */
    method HandleLogin(typed: string, userdataDir: string, dirs: Option<seq<string>>,
                       readUser: string -> ReadOutcome, sha1: string -> ChatUtils.Digest)
      modifies this
      ensures match Login(typed, userdataDir, dirs, readUser, sha1)
        case Refused(e) => errorText == e && loggedIn == old(loggedIn)
        case LoggedIn(u) => errorText == "" && loggedIn == old(loggedIn) + [u]
        case Aborted => errorText == old(errorText) && loggedIn == old(loggedIn)
    {
      var entered := Trim(typed);
      if entered == "" {
        errorText := EmptyNameError;
        return;
      }
      var found: Option<nat> := None;
      if dirs.Some? {
        found := FindUserDir(dirs.value, entered);
      }
      var user: Option<User>;
      if found.Some? {
        var matchedDir := dirs.value[found.value];
        match readUser(userdataDir + "/" + matchedDir + "/user.json")
        case ReadFailed =>
          errorText := ReadError;
          return;
        case ReadThrew =>
          return;
        case ReadOk(u) =>
          user := u;
      } else {
        var safeName := ChatUtils.EnsureUserExists(entered, userdataDir, sha1);
        user := Some(NewUser(safeName, Some(entered)));
      }
      errorText := "";
      loggedIn := loggedIn + [user];
    }

    /** The search of the folder listing for the entered name. */
    static method FindUserDir(dirs: seq<string>, entered: string) returns (found: Option<nat>)
      ensures found == FirstMatch(dirs, entered)
    {
      var i := 0;
      while i < |dirs|
        invariant 0 <= i <= |dirs|
        invariant forall k :: 0 <= k < i ==> ChatUtils.GetBaseName(dirs[k]) != entered
      {
        if ChatUtils.GetBaseName(dirs[i]) == entered {
          FirstMatchIs(dirs, entered, i);
          return Some(i);
        }
        i := i + 1;
      }
      FirstMatchNone(dirs, entered);
      return None;
    }
  }
}
