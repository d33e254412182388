/**
 * Post-processing of the language model's reply in the task extraction
 * route: the reply is stripped of surrounding whitespace, a Markdown code
 * fence around it is dropped line-wise, and the remaining text is parsed
 * as JSON. Any failure, of the model call or of the parse, is answered with
 * a single fallback task. The model call and the JSON parser are inputs.
 */
module TaskExtraction {
  import opened Wrappers

  /** The characters Python's `str.isspace` accepts, which `str.strip` removes. */
  predicate IsSpace(c: char): (b: bool)
    ensures c == ' ' || c == '\t' || c == '\n' || c == '\r' ==> b
    ensures '0' <= c <= '9' || 'a' <= c <= 'z' || 'A' <= c <= 'Z' || c == '`' || c == '[' || c == '{' || c == '"' ==> !b
  {
    c == ' ' || c == '\t' || c == '\n' || c == '\r' || c == '\U{B}' || c == '\U{C}' ||
    ('\U{1C}' <= c <= '\U{1F}') || c == '\U{85}' || c == '\U{A0}' || c == '\U{1680}' ||
    ('\U{2000}' <= c <= '\U{200A}') || c == '\U{2028}' || c == '\U{2029}' ||
    c == '\U{202F}' || c == '\U{205F}' || c == '\U{3000}'
  }

  /** `s` without its leading whitespace. */
  function TrimStart(s: string): (r: string)
    ensures |r| <= |s| && r == s[|s| - |r|..]
    ensures forall k :: 0 <= k < |s| - |r| ==> IsSpace(s[k])
    ensures r == [] || !IsSpace(r[0])
    decreases |s|
  {
    if s != [] && IsSpace(s[0]) then TrimStart(s[1..]) else s
  }

  /** `s` without its trailing whitespace. */
  function TrimEnd(s: string): (r: string)
    ensures |r| <= |s| && r == s[..|r|]
    ensures forall k :: |r| <= k < |s| ==> IsSpace(s[k])
    ensures r == [] || !IsSpace(r[|r| - 1])
    decreases |s|
  {
    if s != [] && IsSpace(s[|s| - 1]) then TrimEnd(s[..|s| - 1]) else s
  }

  /** `s.strip()`: `s` without its leading and trailing whitespace. */
  function Strip(s: string): (r: string)
    ensures |r| <= |s|
    ensures r == [] || (!IsSpace(r[0]) && !IsSpace(r[|r| - 1]))
  {
    TrimEnd(TrimStart(s))
  }

  /**
   * Stripping keeps one contiguous part of the text and removes only
   * whitespace around it.
   */
  lemma StripRemovesOnlyWhitespace(s: string)
    ensures var r := Strip(s);
      var i := |s| - |TrimStart(s)|;
      i + |r| <= |s| && r == s[i..i + |r|] &&
      (forall k :: 0 <= k < i ==> IsSpace(s[k])) &&
      (forall k :: i + |r| <= k < |s| ==> IsSpace(s[k]))
  {
    var front := TrimStart(s);
    var r := TrimEnd(front);
    var i := |s| - |front|;
    assert front == s[i..];
    assert r == front[..|r|];
    forall k | i + |r| <= k < |s| ensures IsSpace(s[k]) {
      assert s[k] == front[k - i];
    }
  }

  /** Stripping twice is stripping once. */
  lemma StripIdempotent(s: string)
    ensures Strip(Strip(s)) == Strip(s)
  {
    var r := Strip(s);
    assert TrimStart(r) == r;
    assert TrimEnd(r) == r;
  }

  /** `s.split(sep)`: the pieces of `s` between separators, always at least one. */
  function Split(s: string, sep: char): (parts: seq<string>)
    ensures |parts| >= 1
    ensures forall k :: 0 <= k < |parts| ==> sep !in parts[k]
    decreases |s|
  {
    if s == [] then [""]
    else
      var rest := Split(s[1..], sep);
      if s[0] == sep then [""] + rest
      else [[s[0]] + rest[0]] + rest[1..]
  }

  /** `sep.join(parts)`. */
  function Join(parts: seq<string>, sep: char): string
    decreases |parts|
  {
    if |parts| == 0 then ""
    else if |parts| == 1 then parts[0]
    else parts[0] + [sep] + Join(parts[1..], sep)
  }

  /** The joined text starts with the first piece and ends with the last one. */
  lemma {:induction false} JoinEnds(parts: seq<string>, sep: char)
    requires |parts| >= 1
    ensures |parts[0]| <= |Join(parts, sep)| && Join(parts, sep)[..|parts[0]|] == parts[0]
    ensures var last := parts[|parts| - 1]; var t := Join(parts, sep);
      |last| <= |t| && t[|t| - |last|..] == last
    decreases |parts|
  {
    if |parts| > 1 {
      JoinEnds(parts[1..], sep);
      var t := Join(parts, sep);
      var rest := Join(parts[1..], sep);
      assert t == parts[0] + [sep] + rest;
      assert t[..|parts[0]|] == parts[0];
      assert parts[1..][|parts[1..]| - 1] == parts[|parts| - 1];
      assert t[|t| - |rest|..] == rest;
    }
  }

  /** Joining the pieces of a split with the same separator gives back the text. */
  lemma {:induction false} JoinSplit(s: string, sep: char)
    ensures Join(Split(s, sep), sep) == s
    decreases |s|
  {
    if s != [] {
      var rest := Split(s[1..], sep);
      JoinSplit(s[1..], sep);
      if s[0] == sep {
        assert ([""] + rest)[1..] == rest;
      } else {
        var parts := [[s[0]] + rest[0]] + rest[1..];
        if |rest| > 1 {
          assert parts[1..] == rest[1..];
          assert Join(rest, sep) == rest[0] + [sep] + Join(rest[1..], sep);
        }
      }
    }
  }

  /** Splitting text whose front `a` holds no separator extends the first piece by `a`. */
  lemma {:induction false} SplitPrefix(a: string, rest: string, sep: char)
    requires sep !in a
    ensures Split(a + rest, sep) == [a + Split(rest, sep)[0]] + Split(rest, sep)[1..]
    decreases |a|
  {
    if a == [] {
      assert a + rest == rest;
      assert a + Split(rest, sep)[0] == Split(rest, sep)[0];
      assert Split(rest, sep) == [Split(rest, sep)[0]] + Split(rest, sep)[1..];
    } else {
      assert (a + rest)[1..] == a[1..] + rest;
      SplitPrefix(a[1..], rest, sep);
      assert [a[0]] + (a[1..] + Split(rest, sep)[0]) == a + Split(rest, sep)[0];
    }
  }

  /** Splitting joined pieces that hold no separator gives back the pieces. */
  lemma {:induction false} SplitJoin(parts: seq<string>, sep: char)
    requires |parts| >= 1
    requires forall k :: 0 <= k < |parts| ==> sep !in parts[k]
    ensures Split(Join(parts, sep), sep) == parts
    decreases |parts|
  {
    if |parts| == 1 {
      SplitPrefix(parts[0], "", sep);
      assert parts[0] + "" == parts[0];
    } else {
      var tail := Join(parts[1..], sep);
      SplitJoin(parts[1..], sep);
      assert parts[0] + [sep] + tail == parts[0] + ([sep] + tail);
      SplitPrefix(parts[0], [sep] + tail, sep);
      assert ([sep] + tail)[0] == sep && ([sep] + tail)[1..] == tail;
      assert Split([sep] + tail, sep) == [""] + parts[1..];
      assert parts[0] + "" == parts[0];
      assert parts == [parts[0]] + parts[1..];
    }
  }

  /** Joining a non-empty sequence with one more piece puts a separator before it. */
  lemma {:induction false} JoinSnoc(parts: seq<string>, last: string, sep: char)
    requires |parts| >= 1
    ensures Join(parts + [last], sep) == Join(parts, sep) + [sep] + last
    decreases |parts|
  {
    if |parts| > 1 {
      assert (parts + [last])[1..] == parts[1..] + [last];
      JoinSnoc(parts[1..], last, sep);
    }
  }

  const Fence: string := "```"

  predicate StartsWith(s: string, prefix: string) {
    |prefix| <= |s| && s[..|prefix|] == prefix
  }

  /** `lines[1:-1]`: every line but the first and the last. */
  function InnerLines(lines: seq<string>): (r: seq<string>)
    ensures |r| == if |lines| < 2 then 0 else |lines| - 2
    ensures forall k :: 0 <= k < |r| ==> r[k] == lines[k + 1]
  {
    if |lines| < 2 then [] else lines[1..|lines| - 1]
  }

  /**
   * The text handed to the JSON parser: the stripped reply, and when it
   * opens a code fence, the lines between its first and its last line.
   */
  function CleanReply(reply: string): (r: string)
    ensures !StartsWith(Strip(reply), Fence) ==> r == Strip(reply)
  {
    var t := Strip(reply);
    if StartsWith(t, Fence) then Join(InnerLines(Split(t, '\n')), '\n') else t
  }

  /** Joined pieces, of which there are at least three, around their middle part. */
  lemma JoinOuter(parts: seq<string>, sep: char)
    requires |parts| >= 3
    ensures Join(parts, sep) == parts[0] + [sep] + Join(parts[1..|parts| - 1], sep) + [sep] + parts[|parts| - 1]
  {
    var n := |parts|;
    var inner := parts[1..n - 1];
    assert parts[1..] == inner + [parts[n - 1]];
    JoinSnoc(inner, parts[n - 1], sep);
  }

  /** The first line of a text that opens a fence holds the whole fence. */
  lemma FirstLineOpensFence(t: string)
    requires StartsWith(t, Fence)
    ensures StartsWith(Split(t, '\n')[0], Fence)
  {
    var lines := Split(t, '\n');
    JoinSplit(t, '\n');
    if |lines| > 1 {
      assert t == lines[0] + ['\n'] + Join(lines[1..], '\n');
      assert t[|lines[0]|] == '\n';
      assert '\n' !in Fence;
      assert |lines[0]| >= |Fence|;
      assert t[..|Fence|] == lines[0][..|Fence|];
    }
  }

  /**
   * A fenced reply loses exactly its first line (the opening fence) and its
   * last line: the stripped reply is that first line, a newline, the parsed
   * text, a newline and the last line. With fewer than three lines nothing
   * is left.
   */
  lemma FencedReplyDropsOuterLines(reply: string)
    requires StartsWith(Strip(reply), Fence)
    ensures var t := Strip(reply);
      var lines := Split(t, '\n');
      '\n' !in lines[0] && '\n' !in lines[|lines| - 1] && StartsWith(lines[0], Fence) &&
      (|lines| >= 3 ==> t == lines[0] + "\n" + CleanReply(reply) + "\n" + lines[|lines| - 1]) &&
      (|lines| < 3 ==> CleanReply(reply) == "")
  {
    var t := Strip(reply);
    var lines := Split(t, '\n');
    FirstLineOpensFence(t);
    assert CleanReply(reply) == Join(InnerLines(lines), '\n');
    if |lines| >= 3 {
      assert InnerLines(lines) == lines[1..|lines| - 1];
      JoinSplit(t, '\n');
      JoinOuter(lines, '\n');
    } else {
      assert InnerLines(lines) == [];
    }
  }

  /** A task as the client receives it. */
  datatype Task = Task(title: string, description: string, priority: string)

  /** The outcome of the model call: the reply text, or the message of the exception it raised. */
  datatype LlmReply = Reply(text: string) | CallFailed(message: string)

  /** The route's answer: the parsed tasks with the raw reply, or the fallback tasks with the error. */
  datatype Extraction<J> = Extracted(tasks: J, rawResponse: string) | Fallback(errorTasks: seq<Task>, error: string)

  const ErrorTaskTitle: string := "Error extracting tasks"
  const ErrorTaskPriority: string := "low"

  /**
   * POST /ai/extract-tasks after the model call: the parse of the cleaned
   * reply, or, on any failure, exactly one low-priority error task carrying
   * the failure's message.
   */
  function ExtractTasks<J>(reply: LlmReply, parse: string -> Result<J, string>): (r: Extraction<J>)
    ensures r.Fallback? <==> reply.CallFailed? || parse(CleanReply(reply.text)).Failure?
    ensures r.Fallback? ==>
      |r.errorTasks| == 1 && r.errorTasks[0].priority == ErrorTaskPriority &&
      r.errorTasks[0].title == ErrorTaskTitle && r.errorTasks[0].description == r.error
    ensures r.Fallback? && reply.CallFailed? ==> r.error == reply.message
    ensures r.Fallback? && reply.Reply? ==> r.error == parse(CleanReply(reply.text)).error
    ensures r.Extracted? ==> r.rawResponse == reply.text && parse(CleanReply(reply.text)) == Success(r.tasks)
  {
    match reply
    case CallFailed(message) => Fallback([Task(ErrorTaskTitle, message, ErrorTaskPriority)], message)
    case Reply(text) =>
      match parse(CleanReply(text))
      case Success(tasks) => Extracted(tasks, text)
      case Failure(message) => Fallback([Task(ErrorTaskTitle, message, ErrorTaskPriority)], message)
  }
}
