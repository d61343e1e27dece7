// git's side of the line protocol: reading what a helper prints.
module GitReader {
  import opened Options
  import opened HelperTypes
  import opened HelperProtocol

  // What git takes a reply for.
  datatype Answer =
    | Capable(names: seq<string>)
    | Refs(refs: seq<GitRef>)
    | Fetched
    | Results(results: seq<PushResult>)
    | OptionReply(line: string)
    | Garbled

  // ---------------------------------------------------------------------------------------------
  // The reader

  // The lines up to a blank one, and what is left after it.
  function Lines(s: string): (r: (seq<string>, string))
    decreases |s|
  {
    var i := Find(s, '\n');
    if i == |s| then ([], "")
    else if i == 0 then ([], s[1..])
    else var more := Lines(s[i + 1..]); ([s[..i]] + more.0, more.1)
  }

  // "ok dst", or "error dst why".
  function ReadResult(line: string): Option<PushResult>
  {
    var ok, error := StripPrefix(line, "ok "), StripPrefix(line, "error ");
    if ok.Some? then Some(PushResult(ok.value, Accepted))
    else if error.None? then None
    else
      var parts := SplitOnce(error.value, ' ');
      if parts.None? then None else Some(PushResult(parts.value.0, Refused(parts.value.1)))
  }

  // "@target name", or "oid name".
  function ReadRef(line: string): Option<GitRef>
  {
    var target := StripPrefix(line, "@");
    var parts := SplitOnce(if target.Some? then target.value else line, ' ');
    if parts.None? then None
    else if target.Some? then Some(GitRef(parts.value.1, "", Some(parts.value.0)))
    else Some(GitRef(parts.value.1, parts.value.0, None))
  }

  // Every line is read, or none.
  function ReadAll<T>(lines: seq<string>, read: string -> Option<T>): Option<seq<T>>
  {
    if lines == [] then Some([]) else
      var first, more := read(lines[0]), ReadAll(lines[1..], read);
      if first.Some? && more.Some? then Some([first.value] + more.value) else None
  }

  // The reply to a call, and what is left after it.
  function ReadReply(c: Call, s: string): (Answer, string)
  {
    var (lines, rest) := Lines(s);
    match c
    case Capabilities => (Capable(lines), rest)
    case List(_) =>
      var refs := ReadAll(lines, ReadRef);
      (if refs.Some? then Refs(refs.value) else Garbled, rest)
    case Fetch(_) => (if lines == [] then Fetched else Garbled, rest)
    case Push(_) =>
      var results := ReadAll(lines, ReadResult);
      (if results.Some? then Results(results.value) else Garbled, rest)
    case SetOption =>
      var i := Find(s, '\n');
      if i < |s| then (OptionReply(s[..i]), s[i + 1..]) else (Garbled, s)
  }

  function ReadReplies(calls: seq<Call>, s: string): (seq<Answer>, string)
  {
    if calls == [] then ([], s) else
      var n := |calls| - 1;
      var before := ReadReplies(calls[..n], s);
      var last := ReadReply(calls[n], before.1);
      (before.0 + [last.0], last.1)
  }

  // ---------------------------------------------------------------------------------------------
  // Lines

  // A result's line reads back exactly when a refused ref's name has no space.
  lemma ResultReadsIff(r: PushResult)
    ensures ReadResult(ResultLine(r)) == Some(r) <==> (r.result.Refused? ==> ' ' !in r.dst)
  {
    var line := ResultLine(r);
    match r.result
    case Accepted => PrefixIff(line, "ok ", r.dst);
    case Refused(message) =>
      var rest := r.dst + " " + message;
      assert line == "error " + rest;
      assert !StartsWith(line, "ok ") by {
        assert line[0] == 'e';
      }
      PrefixIff(line, "error ", rest);
      SplitOnceIff(rest, ' ', r.dst, message);
  }

  // A ref's line reads back exactly when what stands before the name has no space and cannot be
  // taken for the other kind, and a symbolic ref has no object id.
  lemma RefReadsIff(r: GitRef)
    ensures ReadRef(RefLine(r)) == Some(r)
       <==> (if r.symrefTarget.Some? then ' ' !in r.symrefTarget.value && r.oid == ""
             else ' ' !in r.oid && !StartsWith(r.oid, "@"))
  {
    var line := RefLine(r);
    if r.symrefTarget.Some? {
      var rest := r.symrefTarget.value + " " + r.name;
      assert line == "@" + rest;
      PrefixIff(line, "@", rest);
      SplitOnceIff(rest, ' ', r.symrefTarget.value, r.name);
    } else {
      assert line[..1] == if r.oid == "" then " " else r.oid[..1];
      assert StartsWith(line, "@") <==> StartsWith(r.oid, "@");
      SplitOnceIff(line, ' ', r.oid, r.name);
    }
  }

  predicate OneLine(line: string)
  {
    line != "" && '\n' !in line
  }

  lemma {:induction false} LinesReadBack(lines: seq<string>, rest: string)
    requires forall i | 0 <= i < |lines| :: OneLine(lines[i])
    ensures Lines(Written(lines) + "\n" + rest) == (lines, rest)
  {
    var s := Written(lines) + "\n" + rest;
    if lines == [] {
      assert s == "\n" + rest;
    } else {
      var s' := Written(lines[1..]) + "\n" + rest;
      WrittenFirst(lines, rest);
      assert OneLine(lines[0]) && s == lines[0] + ['\n'] + s';
      FindAt(lines[0], '\n', s');
      LinesReadBack(lines[1..], rest);
      assert [lines[0]] + lines[1..] == lines;
    }
  }

  lemma {:induction false} AllRead<T>(lines: seq<string>, items: seq<T>, read: string -> Option<T>)
    requires |lines| == |items| && forall i | 0 <= i < |lines| :: read(lines[i]) == Some(items[i])
    ensures ReadAll(lines, read) == Some(items)
  {
    if lines != [] {
      AllRead(lines[1..], items[1..], read);
      assert [items[0]] + items[1..] == items;
    }
  }

  lemma {:induction false} RefLinesAre(refs: seq<GitRef>)
    ensures |RefLines(refs)| == |refs|
    ensures forall i | 0 <= i < |refs| :: RefLines(refs)[i] == RefLine(refs[i])
  {
    if refs != [] {
      RefLinesAre(refs[..|refs| - 1]);
    }
  }

  lemma {:induction false} ResultLinesAre(results: seq<PushResult>)
    ensures |ResultLines(results)| == |results|
    ensures forall i | 0 <= i < |results| :: ResultLines(results)[i] == ResultLine(results[i])
  {
    if results != [] {
      ResultLinesAre(results[..|results| - 1]);
    }
  }

  // ---------------------------------------------------------------------------------------------
  // Replies

  // What the helper answers to the last call. An error, which is reported elsewhere, leaves an
  // empty list.
  function Meant(helper: Helper, calls: seq<Call>): Answer
    requires calls != []
  {
    match calls[|calls| - 1]
    case Capabilities => Capable(helper.capabilities)
    case List(_) => Refs(if helper.refs(calls).Some? then helper.refs(calls).value else [])
    case Fetch(_) => Fetched
    case Push(_) => Results(if helper.results(calls).Some? then helper.results(calls).value else [])
    case SetOption => OptionReply("unsupported")
  }

  // The same of the call at index i.
  function MeantAt(helper: Helper, calls: seq<Call>, i: nat): Answer
    requires i < |calls|
  {
    Meant(helper, calls[..i + 1])
  }

  function MeantAll(helper: Helper, calls: seq<Call>): seq<Answer>
  {
    seq(|calls|, i requires 0 <= i < |calls| => MeantAt(helper, calls, i))
  }

  predicate RefOk(r: GitRef)
  {
    && '\n' !in r.name
    && if r.symrefTarget.Some? then ' ' !in r.symrefTarget.value && '\n' !in r.symrefTarget.value && r.oid == ""
       else ' ' !in r.oid && '\n' !in r.oid && !StartsWith(r.oid, "@")
  }

  predicate ResultOk(r: PushResult)
  {
    '\n' !in r.dst && (r.result.Refused? ==> ' ' !in r.dst && '\n' !in r.result.message)
  }

  // What the helper answers can be said in lines.
  predicate AnswerOk(a: Answer)
  {
    match a
    case Capable(names) => forall i | 0 <= i < |names| :: OneLine(names[i])
    case Refs(refs) => forall i | 0 <= i < |refs| :: RefOk(refs[i])
    case Results(results) => forall i | 0 <= i < |results| :: ResultOk(results[i])
    case _ => true
  }

  lemma {:induction false} RefsReadBack(refs: seq<GitRef>, rest: string)
    requires forall i | 0 <= i < |refs| :: RefOk(refs[i])
    ensures Lines(Written(RefLines(refs)) + "\n" + rest) == (RefLines(refs), rest)
    ensures ReadAll(RefLines(refs), ReadRef) == Some(refs)
  {
    RefLinesAre(refs);
    forall i | 0 <= i < |refs|
      ensures OneLine(RefLines(refs)[i]) && ReadRef(RefLines(refs)[i]) == Some(refs[i])
    {
      RefReadsIff(refs[i]);
    }
    LinesReadBack(RefLines(refs), rest);
    AllRead(RefLines(refs), refs, ReadRef);
  }

  lemma {:induction false} ResultsReadBack(results: seq<PushResult>, rest: string)
    requires forall i | 0 <= i < |results| :: ResultOk(results[i])
    ensures Lines(Written(ResultLines(results)) + "\n" + rest) == (ResultLines(results), rest)
    ensures ReadAll(ResultLines(results), ReadResult) == Some(results)
  {
    ResultLinesAre(results);
    forall i | 0 <= i < |results|
      ensures OneLine(ResultLines(results)[i]) && ReadResult(ResultLines(results)[i]) == Some(results[i])
    {
      ResultReadsIff(results[i]);
    }
    LinesReadBack(ResultLines(results), rest);
    AllRead(ResultLines(results), results, ReadResult);
  }

  // An option is answered by exactly one line.
  lemma OptionIsUnsupported(helper: Helper, calls: seq<Call>, rest: string)
    requires calls != [] && calls[|calls| - 1].SetOption?
    ensures Reply(helper, calls) == "unsupported\n"
    ensures ReadReply(SetOption, Reply(helper, calls) + rest) == (OptionReply("unsupported"), rest)
  {
    assert ["unsupported"][1..] == [];
    var s := "unsupported" + ['\n'] + rest;
    FindAt("unsupported", '\n', rest);
    assert Reply(helper, calls) + rest == s;
  }

  // git takes every reply for what the helper answered.
  lemma ReplyReadsBack(helper: Helper, calls: seq<Call>, rest: string)
    requires calls != [] && AnswerOk(Meant(helper, calls))
    ensures ReadReply(calls[|calls| - 1], Reply(helper, calls) + rest) == (Meant(helper, calls), rest)
  {
    var lines := ReplyLines(helper, calls);
    match calls[|calls| - 1]
    case SetOption => OptionIsUnsupported(helper, calls, rest);
    case Capabilities => LinesReadBack(lines, rest);
    case Fetch(_) => LinesReadBack(lines, rest);
    case List(_) =>
      if helper.refs(calls).Some? {
        RefsReadBack(helper.refs(calls).value, rest);
      } else {
        LinesReadBack(lines, rest);
      }
    case Push(_) =>
      if helper.results(calls).Some? {
        ResultsReadBack(helper.results(calls).value, rest);
      } else {
        LinesReadBack(lines, rest);
      }
  }

  // And so the whole session: reading the replies to all calls gives each answer in its place and
  // leaves what follows.
  lemma {:induction false} SessionReadsBack(helper: Helper, calls: seq<Call>, rest: string)
    requires forall i | 0 <= i < |calls| :: AnswerOk(MeantAt(helper, calls, i))
    ensures ReadReplies(calls, Printed(helper, calls) + rest)
         == (MeantAll(helper, calls), rest)
  {
    if calls != [] {
      var n := |calls| - 1;
      forall i | 0 <= i < n
        ensures MeantAt(helper, calls[..n], i) == MeantAt(helper, calls, i)
      {
        assert calls[..n][..i + 1] == calls[..i + 1];
      }
      assert MeantAt(helper, calls, n) == Meant(helper, calls) by {
        assert calls[..n + 1] == calls;
      }
      Regroup(Printed(helper, calls[..n]), Reply(helper, calls), rest);
      SessionReadsBack(helper, calls[..n], Reply(helper, calls) + rest);
      ReplyReadsBack(helper, calls, rest);
      assert MeantAll(helper, calls) == MeantAll(helper, calls[..n]) + [Meant(helper, calls)];
    } else {
      assert Printed(helper, calls) + rest == rest;
      assert MeantAll(helper, calls) == [];
    }
  }
}
