/**
 * `onError`: when a start-up step returned an error, the messages are
 * joined into one log line and the process exits with status 1.
 */
module ErrorReport {
  import opened Types

  const ErrorPrefix := "[ERROR] "

  /** The messages in order, each followed by one space. */
  function Joined(messages: seq<string>): string
  {
    if messages == [] then ""
    else Joined(messages[..|messages| - 1]) + messages[|messages| - 1] + " "
  }

  /** The logged line: the prefix before the first message, then the joined messages; nothing for no messages. */
  function ErrorLine(messages: seq<string>): string
  {
    if messages == [] then "" else ErrorPrefix + Joined(messages)
  }

  /** The total length of the messages, counting one separator per message. */
  function TotalLength(messages: seq<string>): nat
  {
    if messages == [] then 0 else |messages[0]| + 1 + TotalLength(messages[1..])
  }

  /** Appending one message to a non-empty list appends it, and a space, to the line. */
  lemma ErrorLineSnoc(messages: seq<string>, m: string)
    ensures messages == [] ==> ErrorLine(messages + [m]) == ErrorPrefix + m + " "
    ensures messages != [] ==> ErrorLine(messages + [m]) == ErrorLine(messages) + m + " "
  {
    var all := messages + [m];
    assert all[..|all| - 1] == messages && all[|all| - 1] == m;
    assert Joined(all) == Joined(messages) + m + " ";
    if messages == [] {
      assert Joined(messages) == "";
    }
  }

  /** A single message is logged after the prefix, followed by a space. */
  lemma ErrorLineSingle(m: string)
    ensures ErrorLine([m]) == ErrorPrefix + m + " "
  {
    assert [m][..|[m]| - 1] == [];
    assert Joined([m]) == Joined([]) + m + " ";
  }

  /** The line for the first `index + 1` messages extends the line for the first `index`. */
  lemma ErrorLineStep(messages: seq<string>, index: nat)
    requires index < |messages|
    ensures index == 0 ==> ErrorLine(messages[..index + 1]) == ErrorPrefix + messages[index] + " "
    ensures index > 0 ==> ErrorLine(messages[..index + 1]) == ErrorLine(messages[..index]) + messages[index] + " "
  {
    assert messages[..index + 1] == messages[..index] + [messages[index]];
    ErrorLineSnoc(messages[..index], messages[index]);
  }

  /**
   * `onError(err, messages...)`: nothing when `err` is nil; otherwise the
   * line that is logged before the process exits with status 1.
   */
  method OnError(failed: bool, messages: seq<string>) returns (exit: Option<string>)
    ensures exit.Some? <==> failed
    ensures failed ==> exit.value == ErrorLine(messages)
  {
    if !failed {
      return None;
    }
    var buffer := "";
    var index := 0;
    while index < |messages|
      invariant 0 <= index <= |messages|
      invariant buffer == ErrorLine(messages[..index])
    {
      ErrorLineStep(messages, index);
      if index == 0 {
        assert buffer + ErrorPrefix == ErrorPrefix;
        buffer := buffer + ErrorPrefix;
      }
      buffer := buffer + messages[index];
      buffer := buffer + " ";
      index := index + 1;
    }
    assert messages[..index] == messages;
    exit := Some(buffer);
  }

  lemma {:induction false} JoinedConcat(a: seq<string>, b: seq<string>)
    ensures Joined(a + b) == Joined(a) + Joined(b)
    decreases |b|
  {
    if b == [] {
      assert a + b == a;
    } else {
      assert (a + b)[..|a + b| - 1] == a + b[..|b| - 1];
      JoinedConcat(a, b[..|b| - 1]);
    }
  }

  lemma {:induction false} JoinedLength(messages: seq<string>)
    ensures |Joined(messages)| == TotalLength(messages)
  {
    if messages != [] {
      JoinedConcat([messages[0]], messages[1..]);
      assert [messages[0]] + messages[1..] == messages;
      assert [messages[0]][..0] == [];
      JoinedLength(messages[1..]);
    }
  }

  /** The line is as long as the prefix (when there is a message) plus every message and its separator. */
  lemma ErrorLineLength(messages: seq<string>)
    ensures |ErrorLine(messages)| == (if messages == [] then 0 else |ErrorPrefix|) + TotalLength(messages)
  {
    JoinedLength(messages);
  }

  /**
   * Message `i` stands in the line right after the prefix and the earlier
   * messages with their separators, and is followed by a space.
   */
  lemma ErrorLineMessageAt(messages: seq<string>, i: nat)
    requires i < |messages|
    ensures var at := |ErrorPrefix| + TotalLength(messages[..i]);
      && at + |messages[i]| < |ErrorLine(messages)|
      && ErrorLine(messages)[at..at + |messages[i]|] == messages[i]
      && ErrorLine(messages)[at + |messages[i]|] == ' '
  {
    var before, after := messages[..i], messages[i + 1..];
    assert messages == before + [messages[i]] + after;
    JoinedConcat(before + [messages[i]], after);
    JoinedConcat(before, [messages[i]]);
    assert [messages[i]][..0] == [];
    JoinedLength(before);
    var line := ErrorPrefix + Joined(before) + messages[i] + " " + Joined(after);
    assert ErrorLine(messages) == line;
  }
}
