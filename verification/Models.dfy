/** Records shared by every backend: results, VLAN rows and PoE status
    (models.py and errors.py). */
module Models {

  datatype Option<+T> = None | Some(value: T)

  /** The library's exception classes, as the error half of a result. */
  datatype Error =
    | ProtectedPort
    | Unsupported
    | Precondition        // SnmpError, CliCommandError or NsdpError raised before anything is sent
    | Rejected            // the device refused a request
    | UnexpectedPage
    | Credential
    | VerificationFailed

  datatype Result<+T> = Ok(value: T) | Err(error: Error)

  datatype VlanMode = Untagged | Tagged | Excluded

  type VlanId = v: int | 1 <= v <= 4096 witness 1

  /** One VLAN row as a reader reports it; the display name plays no part here. */
  datatype VlanInfo = VlanInfo(
    vlanId: VlanId,
    memberPorts: set<int>,
    taggedPorts: set<int>,
    untaggedPorts: set<int>)

  /** How `port` takes part in a VLAN with the given egress and untagged sets. */
  function ModeIn(members: set<int>, untagged: set<int>, port: int): VlanMode {
    if port !in members then Excluded
    else if port in untagged then Untagged
    else Tagged
  }

  function Max(a: int, b: int): int { if a < b then b else a }

  lemma AtMostOne<T>(s: set<T>)
    ensures |s| <= 1 <==> forall x, y :: x in s && y in s ==> x == y
  {
    if forall x, y :: x in s && y in s ==> x == y {
      if s != {} {
        var x :| x in s;
        assert s == {x};
      }
    } else {
      var x, y :| x in s && y in s && x != y;
      assert {x, y} <= s;
      assert |s - {x, y}| + |{x, y}| == |s|;
    }
  }

  /** Some element of a set that has one. */
  ghost function SomeOf<T>(s: set<T>): (x: T)
    requires s != {}
    ensures x in s
  {
    var x :| x in s;
    x
  }

  /** The element of a one-element set (`next(iter(s))`). */
  function TheOnly<T>(s: set<T>): (x: T)
    requires |s| == 1
    ensures s == {x}
  {
    AtMostOne(s);
    var x :| x in s;
    x
  }
}
