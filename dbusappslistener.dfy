/**
 * The task-bar side of the bridge (`DBusAppListener`): how it names the
 * service it talks to, and what its call helpers hand back to the task bar.
 *
 * The session-bus connection is a boolean and a reply is the list of its
 * arguments, already decoded.
 */
module AppsListener {
  import opened Common
  import opened DBus

  /** `mDBusInterfacePath` */
  const CLIENT_OBJECT_PATH: string := "/WindowsList"

  /**
   * `mDBusInterfaceName`: the prefix followed by `WAYLAND_DISPLAY`, an unset
   * variable reading as empty, and then every `-` of the whole text deleted.
   */
  function ClientInterfaceName(env: Option<string>): (r: string)
    ensures '-' !in r
  {
    RemoveHyphensClean(PREFIX + env.GetOr(""));
    RemoveHyphens(PREFIX + env.GetOr(""))
  }

  /** The client's name is the prefix followed by the variable with its hyphens removed, so it holds no hyphen. */
  lemma ClientNameShape(env: Option<string>)
    ensures ClientInterfaceName(env) == PREFIX + RemoveHyphens(env.GetOr(""))
    ensures '-' !in ClientInterfaceName(env)
    ensures CLIENT_OBJECT_PATH == OBJECT_PATH
  {
    PrefixPlain();
    RemoveHyphensAppend(PREFIX, env.GetOr(""));
    RemoveHyphensClean(PREFIX);
    RemoveHyphensClean(PREFIX + env.GetOr(""));
  }

  /** `a + x == a + y` exactly when `x == y`. */
  lemma AppendCancel(a: string, x: string, y: string)
    ensures a + x == a + y <==> x == y
  {
    if a + x == a + y {
      assert x == (a + x)[|a|..];
      assert y == (a + y)[|a|..];
    }
  }

  /**
   * The names on the two sides agree exactly when `WAYLAND_DISPLAY` is set
   * and holds no two adjacent hyphens.
   */
  lemma NamesAgreeIff(env: Option<string>)
    requires WalkSafe(DisplayValue(env))
    ensures ServerInterfaceName(env) == ClientInterfaceName(env) <==> env.Some? && !HasDoubleHyphen(env.value)
  {
    ClientNameShape(env);
    if env.None? {
      ServerNameDefault();
      assert |ServerInterfaceName(env)| != |ClientInterfaceName(env)|;
    } else {
      AppendCancel(PREFIX, Compact(env.value), RemoveHyphens(env.value));
      CompactRemovesAllIff(env.value);
    }
  }

  /** With `WAYLAND_DISPLAY` unset the server registers `lxqt.WindowsList.wayland` and the client asks for `lxqt.WindowsList.`. */
  lemma NamesDifferWhenUnset()
    ensures ServerInterfaceName(None) == PREFIX + "wayland"
    ensures ClientInterfaceName(None) == PREFIX
    ensures ServerInterfaceName(None) != ClientInterfaceName(None)
  {
    ServerNameDefault();
    ClientNameShape(None);
    assert |ServerInterfaceName(None)| == |PREFIX| + 7;
  }

  /** `mDBusInterfaceName` with the server's default display name. */
  function ClientInterfaceNameFixed(env: Option<string>): string {
    RemoveHyphens(PREFIX + DisplayValue(env))
  }

  /** With the shared default the client always names the service the corrected server registers. */
  lemma FixedNamesAgree(env: Option<string>)
    ensures ClientInterfaceNameFixed(env) == PREFIX + RemoveHyphens(DisplayValue(env))
    ensures '-' !in ClientInterfaceNameFixed(env)
    ensures ClientInterfaceNameFixed(env) == ClientInterfaceName(Some(DisplayValue(env)))
  {
    ClientNameShape(Some(DisplayValue(env)));
  }

  /**
   * What a string reply carries on the wire: the server hands a NULL string
   * to `sd_bus_reply_method_return`, which sends it as the empty string.
   */
  function Wire(reply: Option<string>): string {
    reply.GetOr("")
  }

  /** `callUint`: the first reply argument, or 0 when the bus is not connected or the reply is empty. */
  function CallUint(connected: bool, reply: seq<u32>): (r: u32)
    ensures !connected || reply == [] ==> r == 0
    ensures connected && reply != [] ==> r == reply[0]
  {
    if connected && reply != [] then reply[0] else 0
  }

  /** `callString`: the first reply argument, or the empty string when the bus is not connected or the reply is empty. */
  function CallString(connected: bool, reply: seq<string>): (r: string)
    ensures !connected || reply == [] ==> r == ""
    ensures connected && reply != [] ==> r == reply[0]
  {
    if connected && reply != [] then reply[0] else ""
  }

  /**
   * On a connected bus the task bar cannot tell an unknown window from one
   * whose title or app-id is empty or unset: all read as the empty string.
   */
  lemma UnknownReadsAsEmpty(reply: Option<string>)
    ensures CallString(true, [Wire(reply)]) == "" <==> reply == None || reply == Some("")
    ensures CallString(true, [Wire(None)]) == CallString(true, [Wire(Some(""))])
  {
  }

  /** Every reply argument's array, one after the other. */
  function Flatten(args: seq<seq<u32>>): seq<u32>
    decreases |args|
  {
    if args == [] then [] else Flatten(args[..|args| - 1]) + args[|args| - 1]
  }

  /** `getWindowList`: the ids of every array argument of the reply, in order. */
  method GetWindowList(connected: bool, reply: seq<seq<u32>>) returns (ids: seq<u32>)
    ensures !connected ==> ids == []
    ensures connected ==> ids == Flatten(reply)
  {
    ids := [];
    if connected {
      var a := 0;
      while a < |reply|
        invariant 0 <= a <= |reply|
        invariant ids == Flatten(reply[..a])
      {
        var arg := reply[a];
        var j := 0;
        while j < |arg|
          invariant 0 <= j <= |arg|
          invariant ids == Flatten(reply[..a]) + arg[..j]
        {
          ids := ids + [arg[j]];
          j := j + 1;
        }
        assert reply[..a + 1][..a] == reply[..a];
        a := a + 1;
      }
      assert reply[..a] == reply;
    }
  }

  /** The server answers WindowList with one array argument, so the task bar gets exactly the registered ids. */
  lemma WindowListRoundTrip(ids: seq<u32>)
    ensures Flatten([ids]) == ids
  {
    assert [ids][..0] == [];
  }
}
