/** The line selection of `view_logs` (src/cli/commands/logs.rs): the tail
    of the log's lines, then the level filter. Printing, the JSON output
    format and `follow` are not modelled; the function returns the lines
    that would be printed. */
module Logs {
  import opened Wrappers
  import opened Errors
  import opened Text

  /** The log file: missing, unreadable, or its text. */
  datatype LogFile = NoLogFile | Unreadable(reason: string) | Content(text: string)

  /** What `view_logs` shows: the missing-file notice, or lines. */
  datatype LogView = NoLogNotice | Shown(lines: seq<string>)

  /** The tail: the last `tail` lines when `0 < tail < n`, otherwise all. */
  function Tail(lines: seq<string>, tail: nat): (r: seq<string>)
    ensures 0 < tail < |lines| ==> |r| == tail && r == lines[|lines| - tail..]
    ensures !(0 < tail < |lines|) ==> r == lines
    ensures EndsWithLines(lines, r)
  {
    if 0 < tail < |lines| then lines[|lines| - tail..] else lines
  }

  predicate EndsWithLines(lines: seq<string>, r: seq<string>) {
    |r| <= |lines| && lines[|lines| - |r|..] == r
  }

  /** The level test on one line, with `level` already upper-cased. */
  predicate LevelMatches(line: string, level: string) {
    Contains(line, "[" + level + "]") || Contains(line, " " + level + " ") || Contains(Upper(line), level)
  }

  /** The lines passing the level test, in order. */
  function FilterLevel(lines: seq<string>, level: string): (r: seq<string>)
    ensures |r| <= |lines|
    ensures forall k :: 0 <= k < |r| ==> LevelMatches(r[k], level)
  {
    if lines == [] then []
    else (if LevelMatches(lines[0], level) then [lines[0]] else []) + FilterLevel(lines[1..], level)
  }

  /** `view_logs` without its printing. */
  function ViewLogs(file: LogFile, tail: nat, level: Option<string>): (r: TorrerResult<LogView>)
    ensures file == NoLogFile <==> r == Ok(NoLogNotice)
    ensures r.Err? <==> file.Unreadable?
    ensures file.Unreadable? ==> r == Err(Io(file.reason))
  {
    match file
    case NoLogFile => Ok(NoLogNotice)
    case Unreadable(e) => Err(Io(e))
    case Content(text) =>
      var shown := Tail(Lines(text), tail);
      match level
      case None => Ok(Shown(shown))
      case Some(l) => Ok(Shown(FilterLevel(shown, Upper(l))))
  }

  // ---------------------------------------------------------------- lemmas

  /** The three tests amount to one: the upper-cased line contains the
      upper-cased level. The filter is case-insensitive. */
  lemma LevelMatchesIff(line: string, level: string)
    ensures LevelMatches(line, Upper(level)) <==> Contains(Upper(line), Upper(level))
  {
    var u := Upper(level);
    if Contains(line, "[" + u + "]") {
      ContainsPart(line, "[", u, "]");
      ContainsUpperOfUpper(line, level);
    } else if Contains(line, " " + u + " ") {
      ContainsPart(line, " ", u, " ");
      ContainsUpperOfUpper(line, level);
    }
  }

  /** The filter keeps exactly the matching lines. */
  lemma {:induction false} FilterLevelMembers(lines: seq<string>, level: string)
    ensures forall x :: x in FilterLevel(lines, level) <==> x in lines && LevelMatches(x, level)
  {
    if lines != [] {
      FilterLevelMembers(lines[1..], level);
      assert lines == [lines[0]] + lines[1..];
    }
  }

  /** The filter works line by line, so it keeps the order: filtering a
      concatenation is concatenating the filtered parts. */
  lemma {:induction false} FilterLevelAppend(a: seq<string>, b: seq<string>, level: string)
    ensures FilterLevel(a + b, level) == FilterLevel(a, level) + FilterLevel(b, level)
  {
    if a != [] {
      assert (a + b)[1..] == a[1..] + b;
      FilterLevelAppend(a[1..], b, level);
    } else {
      assert a + b == b;
    }
  }

  /** With every line matching, nothing is dropped. */
  lemma {:induction false} FilterLevelAll(lines: seq<string>, level: string)
    requires forall k :: 0 <= k < |lines| ==> LevelMatches(lines[k], level)
    ensures FilterLevel(lines, level) == lines
  {
    if lines != [] {
      FilterLevelAll(lines[1..], level);
    }
  }

  /** Filtering after the tail: what is shown is a selection of the last
      lines, each mentioning the level in any case. */
  lemma ShownLines(text: string, tail: nat, level: string)
    ensures var r := ViewLogs(Content(text), tail, Some(level));
      r.Ok? && r.value.Shown?
      && (forall x :: x in r.value.lines <==> x in Tail(Lines(text), tail) && Contains(Upper(x), Upper(level)))
  {
    var shown := Tail(Lines(text), tail);
    FilterLevelMembers(shown, Upper(level));
    forall x | x in shown
      ensures LevelMatches(x, Upper(level)) <==> Contains(Upper(x), Upper(level))
    {
      LevelMatchesIff(x, level);
    }
  }
}
