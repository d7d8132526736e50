/** `get_bluestacks_device_id` (main.py:19-30): picks the BlueStacks
    endpoint out of the lines that `adb devices` prints.

    Running `adb devices` and `splitlines()` are not modelled: the lines of
    the tool's output are the input. */
module DeviceId {
  import opened Wrappers

  /** The loopback endpoint BlueStacks exposes to adb. */
  const Endpoint: string := "localhost:5555"
  /** The state word adb prints for a connected, usable device. */
  const ReadyState: string := "device"

  /** `sub` stands in `s` starting at index `i`. */
  ghost predicate OccursAt(sub: string, s: string, i: int) {
    0 <= i && i + |sub| <= |s| && s[i..i + |sub|] == sub
  }

  /** The meaning of Python's `sub in s`. */
  ghost predicate Occurs(sub: string, s: string) {
    exists i :: OccursAt(sub, s, i)
  }

  /** `sub in s`, computed by trying each position from the left. */
  function Contains(s: string, sub: string): (r: bool)
    ensures r <==> Occurs(sub, s)
  {
    OccursFirstOrLater(s, sub);
    if |sub| <= |s| && s[..|sub|] == sub then true
    else if |s| == 0 then false
    else Contains(s[1..], sub)
  }

  /** `sub` occurs in `s` at the front or somewhere in the tail. */
  lemma OccursFirstOrLater(s: string, sub: string)
    ensures Occurs(sub, s) <==>
      (|sub| <= |s| && s[..|sub|] == sub) || (|s| > 0 && Occurs(sub, s[1..]))
  {
    if |sub| <= |s| && s[..|sub|] == sub {
      assert OccursAt(sub, s, 0);
    }
    if |s| > 0 {
      if Occurs(sub, s) && !(|sub| <= |s| && s[..|sub|] == sub) {
        var i :| OccursAt(sub, s, i);
        assert i != 0;
        SliceOfTail(s, i - 1, |sub|);
        assert OccursAt(sub, s[1..], i - 1);
      }
      if Occurs(sub, s[1..]) {
        var i :| OccursAt(sub, s[1..], i);
        SliceOfTail(s, i, |sub|);
        assert OccursAt(sub, s, i + 1);
      }
    }
  }

  /** A slice of `s[1..]` is the slice of `s` one further on. */
  lemma SliceOfTail(s: string, i: nat, n: nat)
    requires 0 < |s| && i + n <= |s| - 1
    ensures s[1..][i..i + n] == s[i + 1..i + 1 + n]
  {
  }

  /** A string that lacks one of the characters of `sub` cannot contain `sub`. */
  lemma MissingChar(s: string, sub: string, c: char)
    requires c in sub && c !in s
    ensures !Contains(s, sub)
  {
  }

  /** The test of main.py:27, applied to one line. */
  function IsBlueStacksLine(line: string): (b: bool)
    ensures b <==> Occurs(Endpoint, line) && Occurs(ReadyState, line)
  {
    Contains(line, Endpoint) && Contains(line, ReadyState)
  }

  /** What `get_bluestacks_device_id` returns for the given lines. */
  function ResolveDevice(lines: seq<string>): Option<string> {
    if exists i | 0 <= i < |lines| :: IsBlueStacksLine(lines[i]) then Some(Endpoint) else None
  }

  /** The scan of main.py:26-30: return at the first line holding both
      `localhost:5555` and `device`, and `None` when no line does. */
  method GetBlueStacksDeviceId(lines: seq<string>) returns (id: Option<string>)
    ensures id == ResolveDevice(lines)
  {
    for i := 0 to |lines|
      invariant forall j | 0 <= j < i :: !IsBlueStacksLine(lines[j])
    {
      if Contains(lines[i], Endpoint) && Contains(lines[i], ReadyState) {
        return Some(Endpoint);
      }
    }
    return None;
  }

  /** Resolution succeeds, always with the BlueStacks endpoint, exactly when
      one and the same line holds both substrings. */
  lemma ResolveMeaning(lines: seq<string>)
    ensures ResolveDevice(lines) == Some(Endpoint) <==>
      exists line | line in lines :: Occurs(Endpoint, line) && Occurs(ReadyState, line)
    ensures ResolveDevice(lines) != Some(Endpoint) ==> ResolveDevice(lines) == None
  {
    if ResolveDevice(lines) == Some(Endpoint) {
      var i :| 0 <= i < |lines| && IsBlueStacksLine(lines[i]);
      assert lines[i] in lines;
    }
  }

  /** Only which lines occur matters, not their order or multiplicity. */
  lemma ResolveIgnoresOrder(a: seq<string>, b: seq<string>)
    requires forall line :: line in a <==> line in b
    ensures ResolveDevice(a) == ResolveDevice(b)
  {
    ResolveMeaning(a);
    ResolveMeaning(b);
  }

  /** Lines that each lack a character of `localhost:5555` or of `device`
      never resolve. */
  lemma NotFoundWhenEveryLineLacksAChar(lines: seq<string>, c: char, d: char)
    requires c in Endpoint && d in ReadyState
    requires forall i | 0 <= i < |lines| :: c !in lines[i] || d !in lines[i]
    ensures ResolveDevice(lines) == None
  {
    forall i | 0 <= i < |lines|
      ensures !IsBlueStacksLine(lines[i])
    {
      if c !in lines[i] {
        MissingChar(lines[i], Endpoint, c);
      } else {
        MissingChar(lines[i], ReadyState, d);
      }
    }
  }

  /** The two substrings on different lines do not resolve. */
  lemma SplitAcrossLinesIsNotFound()
    ensures ResolveDevice(["List of devices attached", "localhost:5555\toffline", "emulator-5554\tdevice"]) == None
  {
    NotFoundWhenEveryLineLacksAChar(["List of devices attached", "localhost:5555\toffline", "emulator-5554\tdevice"], ':', 'v');
  }

  /** A connected BlueStacks line resolves to the endpoint. */
  lemma ConnectedLineIsFound()
    ensures ResolveDevice(["List of devices attached", "localhost:5555\tdevice"]) == Some(Endpoint)
  {
    var line := "localhost:5555\tdevice";
    assert OccursAt(Endpoint, line, 0);
    assert OccursAt(ReadyState, line, 15);
    assert IsBlueStacksLine(["List of devices attached", line][1]);
  }

  /** The test is by substring: a line for port 55550 also resolves, to
      `localhost:5555`. */
  lemma LongerPortAlsoMatches()
    ensures ResolveDevice(["localhost:55550\tdevice"]) == Some(Endpoint)
  {
    var line := "localhost:55550\tdevice";
    assert OccursAt(Endpoint, line, 0);
    assert OccursAt(ReadyState, line, 16);
    assert IsBlueStacksLine([line][0]);
  }
}
