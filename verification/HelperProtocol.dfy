// The line protocol git speaks with a remote helper: reading a session from standard input.
module HelperProtocol {
  import opened Options
  import opened HelperTypes

  // What the helper is asked for, in order. An option is only acknowledged.
  datatype Call =
    | Capabilities
    | List(forPush: bool)
    | Fetch(cmds: seq<FetchCmd>)
    | Push(specs: seq<PushSpec>)
    | SetOption

  // ---------------------------------------------------------------------------------------------
  // Text

  // Unicode's White_Space.
  predicate White(c: char)
  {
    || '\t' <= c <= '\r' || c == ' ' || c == '\U{0085}' || c == '\U{00a0}' || c == '\U{1680}'
    || '\U{2000}' <= c <= '\U{200a}' || c == '\U{2028}' || c == '\U{2029}' || c == '\U{202f}'
    || c == '\U{205f}' || c == '\U{3000}'
  }

  function TrimStart(s: string): string
  {
    if s != "" && White(s[0]) then TrimStart(s[1..]) else s
  }

  function TrimEnd(s: string): string
  {
    if s != "" && White(s[|s| - 1]) then TrimEnd(s[..|s| - 1]) else s
  }

  function Trim(s: string): string
  {
    TrimEnd(TrimStart(s))
  }

  predicate AllWhite(s: string)
  {
    forall i | 0 <= i < |s| :: White(s[i])
  }

  lemma TrimStartTakes(s: string) returns (a: string)
    ensures AllWhite(a) && s == a + TrimStart(s)
    ensures TrimStart(s) != "" ==> !White(TrimStart(s)[0])
  {
    if s != "" && White(s[0]) {
      var b := TrimStartTakes(s[1..]);
      a := [s[0]] + b;
    } else {
      a := "";
    }
  }

  lemma TrimEndTakes(s: string) returns (b: string)
    ensures AllWhite(b) && s == TrimEnd(s) + b
    ensures TrimEnd(s) != "" ==> !White(TrimEnd(s)[|TrimEnd(s)| - 1])
  {
    if s != "" && White(s[|s| - 1]) {
      var a := TrimEndTakes(s[..|s| - 1]);
      b := a + [s[|s| - 1]];
    } else {
      b := "";
    }
  }

  // Trimming takes the white space off both ends, and nothing else.
  lemma TrimTakesWhite(s: string) returns (a: string, b: string)
    ensures AllWhite(a) && AllWhite(b) && s == a + Trim(s) + b
    ensures Trim(s) != "" ==> !White(Trim(s)[0]) && !White(Trim(s)[|Trim(s)| - 1])
  {
    a := TrimStartTakes(s);
    b := TrimEndTakes(TrimStart(s));
    assert Trim(s) != "" ==> Trim(s)[0] == TrimStart(s)[0];
  }

  predicate StartsWith(s: string, prefix: string)
  {
    |prefix| <= |s| && s[..|prefix|] == prefix
  }

  function StripPrefix(s: string, prefix: string): Option<string>
  {
    if StartsWith(s, prefix) then Some(s[|prefix|..]) else None
  }

  function Find(s: string, c: char): (i: nat)
    ensures i <= |s| && c !in s[..i] && (i < |s| ==> s[i] == c)
  {
    if s == "" || s[0] == c then 0 else
      var i := Find(s[1..], c) + 1;
      assert s[..i] == [s[0]] + s[1..][..i - 1];
      i
  }

  // The parts before and after the first c.
  function SplitOnce(s: string, c: char): Option<(string, string)>
  {
    var i := Find(s, c);
    if i < |s| then Some((s[..i], s[i + 1..])) else None
  }

  // The first line, with its newline if it has one.
  function FirstLine(s: string): (line: string)
    ensures |line| <= |s| && (s != "" ==> line != "")
  {
    var i := Find(s, '\n');
    if i < |s| then s[..i + 1] else s
  }

  function AfterLine(s: string): string
  {
    s[|FirstLine(s)|..]
  }

  // ---------------------------------------------------------------------------------------------
  // Lines

  function ParseFetchLine(line: string): Option<FetchCmd>
  {
    var rest := StripPrefix(line, "fetch ");
    if rest.None? then None else
      var parts := SplitOnce(rest.value, ' ');
      if parts.None? then None else Some(FetchCmd(parts.value.0, parts.value.1))
  }

  function ParsePushLine(line: string): Option<PushSpec>
  {
    var rest := StripPrefix(line, "push ");
    if rest.None? then None else
      var forced := StripPrefix(rest.value, "+");
      var parts := SplitOnce(if forced.Some? then forced.value else rest.value, ':');
      if parts.None? then None else Some(PushSpec(forced.Some?, parts.value.0, parts.value.1))
  }

  function FetchLine(c: FetchCmd): string
  {
    "fetch " + c.oid + " " + c.name
  }

  function PushLine(s: PushSpec): string
  {
    "push " + (if s.force then "+" else "") + s.src + ":" + s.dst
  }

  lemma FindAt(a: string, c: char, b: string)
    requires c !in a
    ensures SplitOnce(a + [c] + b, c) == Some((a, b))
  {
    var s := a + [c] + b;
    var i := Find(s, c);
    assert forall j | 0 <= j < |a| :: s[j] == a[j] && a[j] != c;
    assert s[|a|] == c;
    assert forall j | 0 <= j < i :: s[..i][j] == s[j];
    assert s[..|a|] == a && s[|a| + 1..] == b;
  }

  lemma SplitOnceIff(s: string, c: char, a: string, b: string)
    ensures SplitOnce(s, c) == Some((a, b)) <==> s == a + [c] + b && c !in a
  {
    if s == a + [c] + b && c !in a {
      FindAt(a, c, b);
    }
    var i := Find(s, c);
    if i < |s| {
      assert s == s[..i] + [c] + s[i + 1..];
    }
  }

  lemma PrefixIff(s: string, prefix: string, rest: string)
    ensures StripPrefix(s, prefix) == Some(rest) <==> s == prefix + rest
  {
  }

  lemma FetchLineIs(c: FetchCmd, rest: string)
    requires rest == c.oid + " " + c.name
    ensures FetchLine(c) == "fetch " + rest
  {
  }

  // A fetch line parses to a command exactly when it is the line of that command, and the object
  // id holds no space.
  lemma ParseFetchLineIff(line: string, c: FetchCmd)
    ensures ParseFetchLine(line) == Some(c) <==> line == FetchLine(c) && ' ' !in c.oid
  {
    var rest := c.oid + " " + c.name;
    PrefixIff(line, "fetch ", rest);
    FetchLineIs(c, rest);
    if StripPrefix(line, "fetch ").Some? {
      SplitOnceIff(StripPrefix(line, "fetch ").value, ' ', c.oid, c.name);
    }
  }

  predicate WellFormedSrc(s: PushSpec)
  {
    ':' !in s.src && (!s.force ==> !StartsWith(s.src, "+"))
  }

  lemma PushLineIs(s: PushSpec, rest: string)
    requires rest == if s.force then "+" + (s.src + ":" + s.dst) else s.src + ":" + s.dst
    ensures PushLine(s) == "push " + rest
  {
  }

  lemma ParsePushLineIff(line: string, s: PushSpec)
    ensures ParsePushLine(line) == Some(s) <==> line == PushLine(s) && WellFormedSrc(s)
  {
    var pair := s.src + ":" + s.dst;
    var rest := if s.force then "+" + pair else pair;
    PushLineIs(s, rest);
    PrefixIff(line, "push ", rest);
    if StartsWith(line, "push ") {
      ParseRestIff(line[5..], s, pair);
    }
  }

  lemma ParseRestIff(r: string, s: PushSpec, pair: string)
    requires pair == s.src + ":" + s.dst
    ensures && StartsWith(r, "+") == s.force
            && SplitOnce(if StartsWith(r, "+") then r[1..] else r, ':') == Some((s.src, s.dst))
       <==> r == (if s.force then "+" + pair else pair) && WellFormedSrc(s)
  {
    PlusIff(r, s.force, pair);
    SplitOnceIff(if StartsWith(r, "+") then r[1..] else r, ':', s.src, s.dst);
    assert pair[0] == if s.src == "" then ':' else s.src[0];
  }

  // Taking off the plus sign leaves `pair`, and tells whether there was one.
  lemma PlusIff(r: string, force: bool, pair: string)
    ensures StartsWith(r, "+") == force && (if force then r[1..] else r) == pair
       <==> r == (if force then "+" + pair else pair) && (force || !StartsWith(pair, "+"))
  {
  }

  // ---------------------------------------------------------------------------------------------
  // Sessions

  // The items of the following lines, and what is left after the blank line.
  function Batch<T>(s: string, prefix: string, parser: string -> Option<T>): (r: (seq<T>, string))
    ensures |r.1| <= |s|
    decreases |s|
  {
    var line, rest := Trim(FirstLine(s)), AfterLine(s);
    if s == "" || line == "" then ([], rest) else
      var more := Batch(rest, prefix, parser);
      (Item(line, prefix, parser) + more.0, more.1)
  }

  function Item<T>(line: string, prefix: string, parser: string -> Option<T>): seq<T>
  {
    if StartsWith(line, prefix) && parser(line).Some? then [parser(line).value] else []
  }

  function Head<T>(line: string, parser: string -> Option<T>): seq<T>
  {
    if parser(line).Some? then [parser(line).value] else []
  }

  // No further command: the input ends, or a blank line comes.
  predicate Over(s: string)
  {
    s == "" || Trim(FirstLine(s)) == ""
  }

  // What one command asks for, and what is left after it.
  function Command(s: string): (r: (seq<Call>, string))
    requires !Over(s)
    ensures |r.1| < |s|
  {
    var line, rest := Trim(FirstLine(s)), AfterLine(s);
    if line == "capabilities" then ([Capabilities], rest)
    else if line == "list" then ([List(false)], rest)
    else if line == "list for-push" then ([List(true)], rest)
    else if StartsWith(line, "fetch ") then
      var batch := Batch(rest, "fetch ", ParseFetchLine);
      ([Fetch(Head(line, ParseFetchLine) + batch.0)], batch.1)
    else if StartsWith(line, "push ") then
      var batch := Batch(rest, "push ", ParsePushLine);
      ([Push(Head(line, ParsePushLine) + batch.0)], batch.1)
    else (if StartsWith(line, "option ") then [SetOption] else [], rest)
  }

  function Session(s: string): seq<Call>
    decreases |s|
  {
    if Over(s) then [] else Command(s).0 + Session(Command(s).1)
  }

  class Stdin {
    var rest: string

    constructor (text: string)
      ensures rest == text
    {
      rest := text;
    }

    // An empty line tells the end of the input.
    method ReadLine() returns (line: string)
      modifies this
      ensures line == FirstLine(old(rest)) && rest == AfterLine(old(rest))
    {
      line := FirstLine(rest);
      rest := rest[|line|..];
    }
  }

  lemma Regroup<T>(a: seq<T>, b: seq<T>, c: seq<T>)
    ensures a + b + c == a + (b + c)
    ensures a + [] == a
  {
  }

  method ReadBatch<T>(stdin: Stdin, first: string, prefix: string, parser: string -> Option<T>) returns (items: seq<T>)
    modifies stdin
    ensures items == Head(first, parser) + Batch(old(stdin.rest), prefix, parser).0
    ensures stdin.rest == Batch(old(stdin.rest), prefix, parser).1
  {
    items := [];
    if parser(first).Some? {
      items := items + [parser(first).value];
    }
    ghost var all := Batch(stdin.rest, prefix, parser);
    while true
      invariant Head(first, parser) + all.0 == items + Batch(stdin.rest, prefix, parser).0
      invariant all.1 == Batch(stdin.rest, prefix, parser).1
      decreases |stdin.rest|
    {
      var line := stdin.ReadLine();
      if line == "" {
        break;
      }
      var t := Trim(line);
      if t == "" {
        break;
      }
      Regroup(items, Item(t, prefix, parser), Batch(stdin.rest, prefix, parser).0);
      if StartsWith(t, prefix) {
        var v := parser(t);
        if v.Some? {
          items := items + [v.value];
        }
      }
    }
  }

  // ---------------------------------------------------------------------------------------------
  // Replies

  // The helper's answers, which may depend on all it was asked, the present request last. None
  // stands for an error, which is reported elsewhere.
  datatype Helper = Helper(
    capabilities: seq<string>,
    refs: seq<Call> -> Option<seq<GitRef>>,
    results: seq<Call> -> Option<seq<PushResult>>)

  // Each line with its newline.
  function Written(lines: seq<string>): string
  {
    if lines == [] then "" else lines[0] + "\n" + Written(lines[1..])
  }

  function RefLine(r: GitRef): string
  {
    if r.symrefTarget.Some? then "@" + r.symrefTarget.value + " " + r.name else r.oid + " " + r.name
  }

  function ResultLine(r: PushResult): string
  {
    match r.result
    case Accepted => "ok " + r.dst
    case Refused(message) => "error " + r.dst + " " + message
  }

  function RefLines(refs: seq<GitRef>): seq<string>
  {
    if refs == [] then [] else RefLines(refs[..|refs| - 1]) + [RefLine(refs[|refs| - 1])]
  }

  function ResultLines(results: seq<PushResult>): seq<string>
  {
    if results == [] then [] else ResultLines(results[..|results| - 1]) + [ResultLine(results[|results| - 1])]
  }

  // The lines of the reply to the last call.
  function ReplyLines(helper: Helper, calls: seq<Call>): seq<string>
    requires calls != []
  {
    match calls[|calls| - 1]
    case Capabilities => helper.capabilities
    case List(_) => if helper.refs(calls).Some? then RefLines(helper.refs(calls).value) else []
    case Fetch(_) => []
    case Push(_) => if helper.results(calls).Some? then ResultLines(helper.results(calls).value) else []
    case SetOption => ["unsupported"]
  }

  // A blank line ends each reply, but not the one to an option.
  function Reply(helper: Helper, calls: seq<Call>): string
    requires calls != []
  {
    Written(ReplyLines(helper, calls)) + if calls[|calls| - 1].SetOption? then "" else "\n"
  }

  function Printed(helper: Helper, calls: seq<Call>): string
  {
    if calls == [] then "" else Printed(helper, calls[..|calls| - 1]) + Reply(helper, calls)
  }

  lemma {:induction false} WrittenAppends(lines: seq<string>, line: string)
    ensures Written(lines + [line]) == Written(lines) + line + "\n"
  {
    if lines == [] {
      assert [line][1..] == [];
    } else {
      WrittenAppends(lines[1..], line);
      assert (lines + [line])[1..] == lines[1..] + [line];
    }
  }

  method WriteLines(lines: seq<string>) returns (out: string)
    ensures out == Written(lines)
  {
    out := "";
    for i := 0 to |lines|
      invariant out == Written(lines[..i])
    {
      WrittenAppends(lines[..i], lines[i]);
      assert lines[..i] + [lines[i]] == lines[..i + 1];
      out := out + lines[i] + "\n";
    }
    assert lines[..|lines|] == lines;
  }

  method WriteRefs(refs: seq<GitRef>) returns (out: string)
    ensures out == Written(RefLines(refs))
  {
    out := "";
    for i := 0 to |refs|
      invariant out == Written(RefLines(refs[..i]))
    {
      var r := refs[i];
      var line := if r.symrefTarget.Some? then "@" + r.symrefTarget.value + " " + r.name else r.oid + " " + r.name;
      assert refs[..i + 1][..i] == refs[..i];
      WrittenAppends(RefLines(refs[..i]), line);
      out := out + line + "\n";
    }
    assert refs[..|refs|] == refs;
  }

  method WriteResults(results: seq<PushResult>) returns (out: string)
    ensures out == Written(ResultLines(results))
  {
    out := "";
    for i := 0 to |results|
      invariant out == Written(ResultLines(results[..i]))
    {
      var r := results[i];
      var line := if r.result.Accepted? then "ok " + r.dst else "error " + r.dst + " " + r.result.message;
      assert results[..i + 1][..i] == results[..i];
      WrittenAppends(ResultLines(results[..i]), line);
      out := out + line + "\n";
    }
    assert results[..|results|] == results;
  }

  // Hands one request to the helper and prints the reply.
  method Serve(helper: Helper, calls: seq<Call>, out: string, c: Call) returns (calls': seq<Call>, out': string)
    requires out == Printed(helper, calls)
    ensures calls' == calls + [c] && out' == Printed(helper, calls')
  {
    calls' := calls + [c];
    var text := "";
    match c {
      case Capabilities => text := WriteLines(helper.capabilities);
      case List(_) =>
        if helper.refs(calls').Some? {
          text := WriteRefs(helper.refs(calls').value);
        }
      case Fetch(_) =>
      case Push(_) =>
        if helper.results(calls').Some? {
          text := WriteResults(helper.results(calls').value);
        }
      case SetOption => text := WriteLines(["unsupported"]);
    }
    if !c.SetOption? {
      text := text + "\n";
    }
    assert calls'[..|calls|] == calls;
    out' := out + text;
  }

  // One command, whose line is read already.
  method RunCommand(stdin: Stdin, helper: Helper, trimmed: string, done: seq<Call>, printed: string, ghost text: string)
    returns (calls: seq<Call>, out: string)
    requires !Over(text) && trimmed == Trim(FirstLine(text)) && stdin.rest == AfterLine(text)
    requires printed == Printed(helper, done)
    modifies stdin
    ensures calls == done + Command(text).0 && stdin.rest == Command(text).1
    ensures out == Printed(helper, calls)
  {
    calls, out := done, printed;
    if trimmed == "capabilities" {
      calls, out := Serve(helper, calls, out, Capabilities);
    } else if trimmed == "list" || trimmed == "list for-push" {
      calls, out := Serve(helper, calls, out, List(EndsWith(trimmed, "for-push")));
    } else if StartsWith(trimmed, "fetch ") {
      var cmds := ReadBatch(stdin, trimmed, "fetch ", ParseFetchLine);
      calls, out := Serve(helper, calls, out, Fetch(cmds));
    } else if StartsWith(trimmed, "push ") {
      var specs := ReadBatch(stdin, trimmed, "push ", ParsePushLine);
      calls, out := Serve(helper, calls, out, Push(specs));
    } else if StartsWith(trimmed, "option ") {
      calls, out := Serve(helper, calls, out, SetOption);
    }
  }

  // Reads commands until a blank line or the end of the input, hands them to the helper and prints
  // its replies.
  method RunHelper(stdin: Stdin, helper: Helper) returns (calls: seq<Call>, out: string)
    modifies stdin
    ensures calls == Session(old(stdin.rest)) && out == Printed(helper, calls)
  {
    calls, out := [], "";
    ghost var all := Session(stdin.rest);
    while true
      invariant all == calls + Session(stdin.rest) && out == Printed(helper, calls)
      decreases |stdin.rest|
    {
      ghost var before, text := calls, stdin.rest;
      var line := stdin.ReadLine();
      if line == "" {
        break;
      }
      var trimmed := Trim(line);
      if trimmed == "" {
        break;
      }
      calls, out := RunCommand(stdin, helper, trimmed, calls, out, text);
      Regroup(before, Command(text).0, Session(stdin.rest));
    }
  }

  predicate EndsWith(s: string, suffix: string)
  {
    |suffix| <= |s| && s[|s| - |suffix|..] == suffix
  }

  // ---------------------------------------------------------------------------------------------
  // Writing a session and reading it back

  // A line that trimming leaves alone.
  predicate Sturdy(line: string)
  {
    line != "" && '\n' !in line && !White(line[0]) && !White(line[|line| - 1])
  }

  predicate FetchOk(c: FetchCmd)
  {
    && ' ' !in c.oid && '\n' !in c.oid && '\n' !in c.name
    && c.name != "" && !White(c.name[|c.name| - 1])
  }

  predicate PushOk(s: PushSpec)
  {
    && WellFormedSrc(s) && '\n' !in s.src && '\n' !in s.dst
    && (s.dst != "" ==> !White(s.dst[|s.dst| - 1]))
  }

  predicate CallOk(c: Call)
  {
    match c
    case Capabilities => true
    case List(_) => true
    case Fetch(cmds) => cmds != [] && forall i | 0 <= i < |cmds| :: FetchOk(cmds[i])
    case Push(specs) => specs != [] && forall i | 0 <= i < |specs| :: PushOk(specs[i])
    case SetOption => true
  }

  function FetchLines(cmds: seq<FetchCmd>): seq<string>
  {
    seq(|cmds|, i requires 0 <= i < |cmds| => FetchLine(cmds[i]))
  }

  function PushLines(specs: seq<PushSpec>): seq<string>
  {
    seq(|specs|, i requires 0 <= i < |specs| => PushLine(specs[i]))
  }

  // What git writes for a call. A batch ends with a blank line.
  function Text(c: Call): string
  {
    match c
    case Capabilities => "capabilities\n"
    case List(forPush) => if forPush then "list for-push\n" else "list\n"
    case Fetch(cmds) => Written(FetchLines(cmds)) + "\n"
    case Push(specs) => Written(PushLines(specs)) + "\n"
    case SetOption => "option progress true\n"
  }

  function Script(calls: seq<Call>): string
  {
    if calls == [] then "" else Text(calls[0]) + Script(calls[1..])
  }

  lemma LineIsRead(line: string, rest: string)
    requires '\n' !in line
    ensures FirstLine(line + "\n" + rest) == line + "\n" && AfterLine(line + "\n" + rest) == rest
  {
    var s := line + "\n" + rest;
    FindAt(line, '\n', rest);
    assert s == line + ['\n'] + rest;
    assert s[..|line| + 1] == line + "\n";
  }

  lemma TrimKeeps(line: string)
    requires Sturdy(line)
    ensures Trim(line + "\n") == line
  {
    var s := line + "\n";
    assert s[0] == line[0] && TrimStart(s) == s;
    assert s[..|s| - 1] == line && TrimEnd(s) == TrimEnd(line) == line;
  }

  lemma SturdyIsRead(line: string, rest: string)
    requires Sturdy(line)
    ensures var s := line + "\n" + rest; s != "" && Trim(FirstLine(s)) == line && AfterLine(s) == rest
  {
    LineIsRead(line, rest);
    TrimKeeps(line);
  }

  lemma BlankEnds(rest: string)
    ensures Over("\n" + rest) && AfterLine("\n" + rest) == rest
  {
    LineIsRead("", rest);
    assert "" + "\n" + rest == "\n" + rest;
    assert TrimStart("\n") == TrimStart("\n"[1..]) == "";
  }

  lemma {:induction false} WrittenFirst(lines: seq<string>, rest: string)
    requires lines != []
    ensures Written(lines) + "\n" + rest == lines[0] + "\n" + (Written(lines[1..]) + "\n" + rest)
  {
  }

  // The line is read as this item.
  predicate ReadAs<T(==)>(line: string, item: T, prefix: string, parser: string -> Option<T>)
  {
    Sturdy(line) && StartsWith(line, prefix) && parser(line) == Some(item)
  }

  predicate ReadsAs<T(==)>(lines: seq<string>, items: seq<T>, prefix: string, parser: string -> Option<T>)
  {
    |lines| == |items| && forall i | 0 <= i < |lines| :: ReadAs(lines[i], items[i], prefix, parser)
  }

  // Written lines up to a blank line read back as the items they stand for.
  lemma {:induction false} BatchReadsBack<T>(lines: seq<string>, items: seq<T>, prefix: string,
                                             parser: string -> Option<T>, rest: string)
    requires ReadsAs(lines, items, prefix, parser)
    ensures Batch(Written(lines) + "\n" + rest, prefix, parser) == (items, rest)
  {
    var s := Written(lines) + "\n" + rest;
    if lines == [] {
      BlankEnds(rest);
      assert s == "\n" + rest;
    } else {
      var s' := Written(lines[1..]) + "\n" + rest;
      WrittenFirst(lines, rest);
      SturdyIsRead(lines[0], s');
      assert ReadAs(lines[0], items[0], prefix, parser);
      BatchReadsBack(lines[1..], items[1..], prefix, parser, rest);
      assert Item(lines[0], prefix, parser) + items[1..] == items;
    }
  }

  lemma FetchLineReads(c: FetchCmd)
    requires FetchOk(c)
    ensures ReadAs(FetchLine(c), c, "fetch ", ParseFetchLine)
  {
    var rest := c.oid + " " + c.name;
    ParseFetchLineIff(FetchLine(c), c);
    FetchLineIs(c, rest);
    PrefixIff(FetchLine(c), "fetch ", rest);
    FetchLineSturdy(c, rest);
  }

  lemma FetchLineSturdy(c: FetchCmd, rest: string)
    requires FetchOk(c) && rest == c.oid + " " + c.name
    ensures Sturdy("fetch " + rest)
  {
    assert '\n' !in rest;
    assert ("fetch " + rest)[|"fetch " + rest| - 1] == rest[|rest| - 1] == c.name[|c.name| - 1];
  }

  lemma PushLineReads(s: PushSpec)
    requires PushOk(s)
    ensures ReadAs(PushLine(s), s, "push ", ParsePushLine)
  {
    ParsePushLineIff(PushLine(s), s);
    var rest := if s.force then "+" + (s.src + ":" + s.dst) else s.src + ":" + s.dst;
    PushLineIs(s, rest);
    PrefixIff(PushLine(s), "push ", rest);
    PushLineSturdy(s, rest);
  }

  lemma PushLineSturdy(s: PushSpec, rest: string)
    requires PushOk(s) && rest == if s.force then "+" + (s.src + ":" + s.dst) else s.src + ":" + s.dst
    ensures Sturdy("push " + rest)
  {
  }

  // A written fetch line comes back exactly when the command is well formed.
  lemma FetchOkIff(c: FetchCmd)
    requires '\n' !in c.oid && '\n' !in c.name
    ensures ParseFetchLine(Trim(FetchLine(c) + "\n")) == Some(c) <==> FetchOk(c)
  {
    var line := FetchLine(c);
    ParseFetchLineIff(Trim(line + "\n"), c);
    if FetchOk(c) {
      FetchLineReads(c);
      TrimKeeps(line);
    } else {
      var a, b := TrimTakesWhite(line + "\n");
      assert line[|line| - 1] == if c.name == "" then ' ' else c.name[|c.name| - 1];
    }
  }

  lemma PushOkIff(s: PushSpec)
    requires '\n' !in s.src && '\n' !in s.dst
    ensures ParsePushLine(Trim(PushLine(s) + "\n")) == Some(s) <==> PushOk(s)
  {
    var line := PushLine(s);
    ParsePushLineIff(Trim(line + "\n"), s);
    if PushOk(s) {
      PushLineReads(s);
      TrimKeeps(line);
    } else {
      var a, b := TrimTakesWhite(line + "\n");
      assert s.dst != "" ==> line[|line| - 1] == s.dst[|s.dst| - 1];
    }
  }

  lemma StartsNot(line: string, prefix: string)
    requires prefix != "" && StartsWith(line, prefix)
    ensures line != "" && line[0] == prefix[0]
    ensures forall other: string {:trigger StartsWith(line, other)} | other != "" && other[0] != prefix[0] ::
              line != other && !StartsWith(line, other)
  {
  }

  lemma {:induction false} FetchCommand(line: string, rest: string)
    requires Sturdy(line) && StartsWith(line, "fetch ")
    ensures var s, batch := line + "\n" + rest, Batch(rest, "fetch ", ParseFetchLine);
            !Over(s) && Command(s) == ([Fetch(Head(line, ParseFetchLine) + batch.0)], batch.1)
  {
    SturdyIsRead(line, rest);
    StartsNot(line, "fetch ");
  }

  lemma {:induction false} PushCommand(line: string, rest: string)
    requires Sturdy(line) && StartsWith(line, "push ")
    ensures var s, batch := line + "\n" + rest, Batch(rest, "push ", ParsePushLine);
            !Over(s) && Command(s) == ([Push(Head(line, ParsePushLine) + batch.0)], batch.1)
  {
    SturdyIsRead(line, rest);
    StartsNot(line, "push ");
  }

  lemma FetchLinesRead(cmds: seq<FetchCmd>)
    requires CallOk(Fetch(cmds))
    ensures ReadsAs(FetchLines(cmds), cmds, "fetch ", ParseFetchLine)
  {
    forall i | 0 <= i < |cmds|
      ensures ReadAs(FetchLines(cmds)[i], cmds[i], "fetch ", ParseFetchLine)
    {
      FetchLineReads(cmds[i]);
    }
  }

  lemma {:induction false} FetchReadsBack(lines: seq<string>, cmds: seq<FetchCmd>, rest: string)
    requires cmds != [] && ReadsAs(lines, cmds, "fetch ", ParseFetchLine)
    ensures var s := Written(lines) + "\n" + rest; !Over(s) && Command(s) == ([Fetch(cmds)], rest)
  {
    assert ReadAs(lines[0], cmds[0], "fetch ", ParseFetchLine);
    var s' := Written(lines[1..]) + "\n" + rest;
    WrittenFirst(lines, rest);
    FetchCommand(lines[0], s');
    BatchReadsBack(lines[1..], cmds[1..], "fetch ", ParseFetchLine, rest);
    assert [cmds[0]] + cmds[1..] == cmds;
  }

  lemma PushLinesRead(specs: seq<PushSpec>)
    requires CallOk(Push(specs))
    ensures ReadsAs(PushLines(specs), specs, "push ", ParsePushLine)
  {
    forall i | 0 <= i < |specs|
      ensures ReadAs(PushLines(specs)[i], specs[i], "push ", ParsePushLine)
    {
      PushLineReads(specs[i]);
    }
  }

  lemma {:induction false} PushReadsBack(lines: seq<string>, specs: seq<PushSpec>, rest: string)
    requires specs != [] && ReadsAs(lines, specs, "push ", ParsePushLine)
    ensures var s := Written(lines) + "\n" + rest; !Over(s) && Command(s) == ([Push(specs)], rest)
  {
    assert ReadAs(lines[0], specs[0], "push ", ParsePushLine);
    var s' := Written(lines[1..]) + "\n" + rest;
    WrittenFirst(lines, rest);
    PushCommand(lines[0], s');
    BatchReadsBack(lines[1..], specs[1..], "push ", ParsePushLine, rest);
    assert [specs[0]] + specs[1..] == specs;
  }

  lemma OptionIsRead(line: string, rest: string)
    requires Sturdy(line) && StartsWith(line, "option ")
    ensures var s := line + "\n" + rest; !Over(s) && Command(s) == ([SetOption], rest)
  {
    SturdyIsRead(line, rest);
    StartsNot(line, "option ");
  }

  // A line that is no command asks for nothing and does not end the session.
  lemma {:induction false} OtherLineIsSkipped(line: string, rest: string)
    requires Sturdy(line) && line != "capabilities" && line != "list" && line != "list for-push"
    requires !StartsWith(line, "fetch ") && !StartsWith(line, "push ") && !StartsWith(line, "option ")
    ensures Session(line + "\n" + rest) == Session(rest)
  {
    SturdyIsRead(line, rest);
  }

  // Nor does a line of a batch that is malformed or of another command: the batch goes on.
  lemma {:induction false} MalformedIsSkipped<T>(line: string, rest: string, prefix: string,
                                                 parser: string -> Option<T>)
    requires Sturdy(line) && (!StartsWith(line, prefix) || parser(line).None?)
    ensures Batch(line + "\n" + rest, prefix, parser) == Batch(rest, prefix, parser)
  {
    SturdyIsRead(line, rest);
    var more := Batch(rest, prefix, parser).0;
    assert Item(line, prefix, parser) + more == more;
  }

  // A malformed first line is passed over too: the rest of its batch is still asked for.
  lemma {:induction false} MalformedFetchIsSkipped(line: string, rest: string)
    requires Sturdy(line) && StartsWith(line, "fetch ") && ParseFetchLine(line).None?
    ensures var batch := Batch(rest, "fetch ", ParseFetchLine);
            Session(line + "\n" + rest) == [Fetch(batch.0)] + Session(batch.1)
  {
    FetchCommand(line, rest);
    var batch := Batch(rest, "fetch ", ParseFetchLine);
    assert [] + batch.0 == batch.0;
  }

  lemma {:induction false} MalformedPushIsSkipped(line: string, rest: string)
    requires Sturdy(line) && StartsWith(line, "push ") && ParsePushLine(line).None?
    ensures var batch := Batch(rest, "push ", ParsePushLine);
            Session(line + "\n" + rest) == [Push(batch.0)] + Session(batch.1)
  {
    PushCommand(line, rest);
    var batch := Batch(rest, "push ", ParsePushLine);
    assert [] + batch.0 == batch.0;
  }

  lemma LineReadsBack(c: Call, rest: string)
    requires c.Capabilities? || c.List?
    ensures var s := Text(c) + rest; !Over(s) && Command(s) == ([c], rest)
  {
    var line := if c.Capabilities? then "capabilities" else if c.forPush then "list for-push" else "list";
    SturdyIsRead(line, rest);
    assert Text(c) == line + "\n";
  }

  lemma CallReadsBack(c: Call, rest: string)
    requires CallOk(c)
    ensures var s := Text(c) + rest; !Over(s) && Command(s) == ([c], rest)
  {
    match c
    case Capabilities => LineReadsBack(c, rest);
    case List(_) => LineReadsBack(c, rest);
    case SetOption =>
      OptionIsRead("option progress true", rest);
      assert Text(c) == "option progress true" + "\n";
    case Fetch(cmds) =>
      FetchLinesRead(cmds);
      FetchReadsBack(FetchLines(cmds), cmds, rest);
    case Push(specs) =>
      PushLinesRead(specs);
      PushReadsBack(PushLines(specs), specs, rest);
  }

  // A well-formed script makes exactly its calls, in order and with equal arguments. What follows
  // a blank line is not read.
  lemma {:induction false} ScriptReadsBack(calls: seq<Call>, end: string)
    requires (forall i | 0 <= i < |calls| :: CallOk(calls[i])) && Over(end)
    ensures Session(Script(calls) + end) == calls
  {
    if calls != [] {
      var rest := Script(calls[1..]) + end;
      ScriptReadsBack(calls[1..], end);
      CallReadsBack(calls[0], rest);
      Regroup(Text(calls[0]), Script(calls[1..]), end);
      assert [calls[0]] + calls[1..] == calls;
    } else {
      assert Script(calls) + end == end;
    }
  }

  function AsIs(line: string): Option<string>
  {
    Some(line)
  }

  // Reading up to a blank line takes exactly one reply, if its lines are proper lines.
  lemma {:induction false} ReplyIsFramed(helper: Helper, calls: seq<Call>, rest: string)
    requires calls != [] && !calls[|calls| - 1].SetOption?
    requires forall i | 0 <= i < |ReplyLines(helper, calls)| :: Sturdy(ReplyLines(helper, calls)[i])
    ensures Batch(Reply(helper, calls) + rest, "", AsIs) == (ReplyLines(helper, calls), rest)
  {
    var lines := ReplyLines(helper, calls);
    forall i | 0 <= i < |lines|
      ensures ReadAs(lines[i], lines[i], "", AsIs)
    {
    }
    BatchReadsBack(lines, lines, "", AsIs, rest);
  }
}
