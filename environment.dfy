/**
 * Locating the coffeelint executable and the user's search path, and the
 * process-wide record of problems already complained about, which keeps
 * each such message from being logged more than once.
 */
module Environment {
  import opened Wrappers
  import opened Strings

  /** The message logged when the executable lookup fails. */
  const CoffeelintNotFound := "coffeelint not found"
  /** The message logged when the user environment has no usable PATH. */
  const NoUserPath := "can't get user path"

  /** The elements of `s` are pairwise distinct. */
  predicate NoDuplicates(s: seq<string>)
  {
    forall i, j :: 0 <= i < j < |s| ==> s[i] != s[j]
  }

  /**
   * The `_complained` dictionary, kept as the set of its keys, together
   * with the messages logged through it in logging order.
   */
  class Complaints {
    var complained: set<string>
    var logged: seq<string>

    /** Exactly the complained-about messages have been logged, each once. */
    ghost predicate Valid()
      reads this
    {
      && (forall m :: m in complained <==> m in logged)
      && NoDuplicates(logged)
    }

    constructor ()
      ensures Valid() && complained == {} && logged == []
    {
      complained := {};
      logged := [];
    }

    /** `if msg not in _complained: _complained[msg] = None; log(msg)`. */
    method Complain(msg: string) returns (first: bool)
      requires Valid()
      modifies this
      ensures Valid()
      ensures first <==> msg !in old(complained)
      ensures complained == old(complained) + {msg}
      ensures logged == if first then old(logged) + [msg] else old(logged)
    {
      first := msg !in complained;
      if first {
        complained := complained + {msg};
        logged := logged + [msg];
      }
    }
  }

  /** The executable `find_coffeelint` settles on, preferring the ".cmd" script wrapper on Windows. */
  function ExecutableFor(which: Option<string>, onWindows: bool, cmdVariantExists: bool): (exe: Option<string>)
    ensures exe.None? <==> which.None?
    ensures exe.Some? && onWindows && cmdVariantExists && which.value != "" ==> exe.value == which.value + ".cmd"
    ensures exe.Some? && !(onWindows && cmdVariantExists) ==> exe.value == which.value
    ensures exe.Some? ==> which.value <= exe.value && (exe.value == "" <==> which.value == "")
  {
    match which
    case None => None
    case Some(found) => Some(if found != "" && onWindows && cmdVariantExists then found + ".cmd" else found)
  }

  /**
   * `find_coffeelint`. `which` is what looking "coffeelint" up on the search
   * path gives: the executable found, or None where the lookup raises.
   * `onWindows` and `cmdVariantExists` answer the platform test and whether
   * the found path with ".cmd" appended exists.
   */
  method FindCoffeelint(complaints: Complaints, which: Option<string>, onWindows: bool, cmdVariantExists: bool)
    returns (exe: Option<string>)
    requires complaints.Valid()
    modifies complaints
    ensures complaints.Valid()
    ensures exe == ExecutableFor(which, onWindows, cmdVariantExists)
    ensures which.None? ==> complaints.complained == old(complaints.complained) + {CoffeelintNotFound}
    ensures which.None? ==>
      complaints.logged ==
        old(complaints.logged) + (if CoffeelintNotFound in old(complaints.complained) then [] else [CoffeelintNotFound])
    ensures which.Some? ==> complaints.complained == old(complaints.complained) && complaints.logged == old(complaints.logged)
  {
    exe := None;
    match which {
      case Some(found) =>
        exe := Some(found);
        if found != "" && onWindows && cmdVariantExists {
          exe := Some(found + ".cmd");
        }
      case None =>
        var _ := complaints.Complain(CoffeelintNotFound);
    }
  }

  /** The search path `find_user_path` settles on: the PATH value split on `pathsep`, or None when there is none. */
  function UserPath(userEnv: Option<map<string, string>>, pathsep: char): (path: Option<seq<string>>)
    ensures path.Some? <==> userEnv.Some? && "PATH" in userEnv.value
    ensures path.Some? ==> |path.value| >= 1 && JoinWith(path.value, pathsep) == userEnv.value["PATH"]
  {
    if userEnv.Some? && "PATH" in userEnv.value then
      JoinSplit(userEnv.value["PATH"], pathsep);
      Some(Split(userEnv.value["PATH"], pathsep))
    else None
  }

  /**
   * `find_user_path`. `userEnv` is the user's environment, or None where
   * reading it raises; the PATH value is split on `pathsep`.
   */
  method FindUserPath(complaints: Complaints, userEnv: Option<map<string, string>>, pathsep: char)
    returns (path: Option<seq<string>>)
    requires complaints.Valid()
    modifies complaints
    ensures complaints.Valid()
    ensures path == UserPath(userEnv, pathsep)
    ensures path.None? ==> complaints.complained == old(complaints.complained) + {NoUserPath}
    ensures path.None? ==>
      complaints.logged ==
        old(complaints.logged) + (if NoUserPath in old(complaints.complained) then [] else [NoUserPath])
    ensures path.Some? ==> complaints.complained == old(complaints.complained) && complaints.logged == old(complaints.logged)
  {
    if userEnv.Some? && "PATH" in userEnv.value {
      path := Some(Split(userEnv.value["PATH"], pathsep));
    } else {
      path := None;
      var _ := complaints.Complain(NoUserPath);
    }
  }

  /** However often the same failure recurs, its message is logged once. */
  method ComplainRepeatedly(complaints: Complaints, msg: string, times: nat)
    requires complaints.Valid()
    modifies complaints
    ensures complaints.Valid()
    ensures complaints.complained == old(complaints.complained) + (if times > 0 then {msg} else {})
    ensures times > 0 ==> msg in complaints.logged
    ensures |complaints.logged| <= |old(complaints.logged)| + 1
  {
    var i := 0;
    while i < times
      invariant 0 <= i <= times
      invariant complaints.Valid()
      invariant complaints.complained == old(complaints.complained) + (if i > 0 then {msg} else {})
      invariant complaints.logged == old(complaints.logged) ||
                (msg !in old(complaints.complained) && complaints.logged == old(complaints.logged) + [msg])
    {
      var _ := complaints.Complain(msg);
      i := i + 1;
    }
  }
}
