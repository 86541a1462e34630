/** The Event Console's table of open events and the two delete commands of
    its status socket: `DELETE` with a comma-separated list of event IDs and
    `DELETE_EVENTS_OF_HOST` with a host name, each followed by the name of
    the user issuing it. A command line reads
    `COMMAND <VERB>;<argument>;<user>`. */
module EventConsole {
  import opened Wrappers
  import opened Strings

  /** An event: its ID, the host it was reported for, its text and the
      monitoring core's host it was matched to. */
  datatype Event = Event(id: nat, host: string, text: string, coreHost: string)

  datatype Command =
    | Delete(ids: seq<nat>, user: string)
    | DeleteEventsOfHost(host: string, user: string)

  datatype CommandError =
    | NotACommand
    | UnknownCommand(verb: string)
    | WrongArgumentCount(verb: string)
    | BadEventId(text: string)

  /** The IDs of a comma-separated list, or the first entry that is not an
      ID. */
  function ParseIds(parts: seq<string>): (r: Result<seq<nat>, CommandError>)
    ensures r.Ok? ==> |r.value| == |parts| && forall i :: 0 <= i < |parts| ==> ParseNat(parts[i]) == Some(r.value[i])
    ensures r.Err? ==> exists i :: 0 <= i < |parts| && ParseNat(parts[i]).None? && r.error == BadEventId(parts[i])
  {
    if |parts| == 0 then Ok([])
    else
      match ParseNat(parts[0])
      case None => Err(BadEventId(parts[0]))
      case Some(id) =>
        match ParseIds(parts[1..])
        case Err(e) => Err(e)
        case Ok(ids) => Ok([id] + ids)
  }

  const CommandPrefix: string := "COMMAND "

  /** Parses a status-socket line into a delete command. */
  function ParseCommand(line: string): (r: Result<Command, CommandError>)
    ensures !IsPrefix(CommandPrefix, line) ==> r == Err(NotACommand)
    ensures r.Ok? ==> (IsPrefix(CommandPrefix, line) &&
                       |Split(line[|CommandPrefix|..], ';')| == 3 &&
                       r.value.user == Split(line[|CommandPrefix|..], ';')[2])
  {
    if !IsPrefix(CommandPrefix, line) then Err(NotACommand)
    else
      var parts := Split(line[|CommandPrefix|..], ';');
      var verb := parts[0];
      var arguments := parts[1..];
      if verb == "DELETE" then
        if |arguments| != 2 then Err(WrongArgumentCount(verb))
        else
          match ParseIds(Split(arguments[0], ','))
          case Err(e) => Err(e)
          case Ok(ids) => Ok(Delete(ids, arguments[1]))
      else if verb == "DELETE_EVENTS_OF_HOST" then
        if |arguments| != 2 then Err(WrongArgumentCount(verb))
        else Ok(DeleteEventsOfHost(arguments[0], arguments[1]))
      else Err(UnknownCommand(verb))
  }

  /** The decimal renderings of the IDs. */
  function IdTexts(ids: seq<nat>): seq<string>
  {
    seq(|ids|, i requires 0 <= i < |ids| => NatToString(ids[i]))
  }

  /** The command line a client sends for a command. */
  function FormatCommand(c: Command): string
  {
    match c
    case Delete(ids, user) => CommandPrefix + Join(";", ["DELETE", Join(",", IdTexts(ids)), user])
    case DeleteEventsOfHost(host, user) => CommandPrefix + Join(";", ["DELETE_EVENTS_OF_HOST", host, user])
  }

  /** A command can be sent when it has at least one ID and no field
      contains a separator. */
  predicate Sendable(c: Command)
  {
    match c
    case Delete(ids, user) => |ids| > 0 && ';' !in user
    case DeleteEventsOfHost(host, user) => ';' !in host && ';' !in user
  }

  lemma {:induction false} ParseIdTexts(ids: seq<nat>)
    ensures ParseIds(IdTexts(ids)) == Ok(ids)
  {
    if |ids| > 0 {
      ParseNatToString(ids[0]);
      assert IdTexts(ids)[1..] == IdTexts(ids[1..]);
      ParseIdTexts(ids[1..]);
      assert [ids[0]] + ids[1..] == ids;
    }
  }

  lemma {:induction false} JoinHasNo(sep: string, parts: seq<string>, c: char)
    requires c !in sep && forall i :: 0 <= i < |parts| ==> c !in parts[i]
    ensures c !in Join(sep, parts)
  {
    if |parts| > 1 {
      JoinHasNo(sep, parts[1..], c);
    }
  }

  /** Parsing a formatted command gives the command back. */
  lemma ParseFormat(c: Command)
    requires Sendable(c)
    ensures ParseCommand(FormatCommand(c)) == Ok(c)
  {
    var line := FormatCommand(c);
    assert IsPrefix(CommandPrefix, line) && line[|CommandPrefix|..] == line[8..];
    match c
    case Delete(ids, user) => {
      var texts := IdTexts(ids);
      forall i | 0 <= i < |texts| ensures ',' !in texts[i] && ';' !in texts[i] {
        DigitsHaveNo(ids[i], ',');
        DigitsHaveNo(ids[i], ';');
      }
      JoinHasNo(",", texts, ';');
      var fields := ["DELETE", Join(",", texts), user];
      assert line[8..] == Join(";", fields);
      SplitJoin(fields, ';');
      SplitJoin(texts, ',');
      ParseIdTexts(ids);
    }
    case DeleteEventsOfHost(host, user) => {
      var fields := ["DELETE_EVENTS_OF_HOST", host, user];
      assert line[8..] == Join(";", fields);
      SplitJoin(fields, ';');
    }
  }

  /** `DELETE;<ids>;<user>` with the IDs in decimal, comma-separated,
      names the IDs in order and the user. */
  lemma ParseDelete(ids: seq<nat>, user: string)
    requires |ids| > 0 && ';' !in user
    ensures ParseCommand(CommandPrefix + "DELETE;" + Join(",", IdTexts(ids)) + ";" + user) == Ok(Delete(ids, user))
  {
    var c := Delete(ids, user);
    var verb, text := "DELETE", Join(",", IdTexts(ids));
    assert verb + ";" == "DELETE;";
    var f := [verb, text, user];
    assert f[1..] == [text, user] && [text, user][1..] == [user];
    assert Join(";", [text, user]) == text + ";" + user;
    assert Join(";", f) == verb + ";" + (text + ";" + user);
    assert FormatCommand(c) == CommandPrefix + (verb + ";" + (text + ";" + user));
    ParseSent(c, CommandPrefix + "DELETE;" + text + ";" + user);
  }

  /** The ID lists of the tests: `1`, `2` and `1,2`. */
  lemma TestIdTexts()
    ensures Join(",", IdTexts([1])) == "1"
    ensures Join(",", IdTexts([2])) == "2"
    ensures Join(",", IdTexts([1, 2])) == "1,2"
  {
    assert IdTexts([1]) == ["1"];
    assert IdTexts([2]) == ["2"];
    assert IdTexts([1, 2]) == ["1", "2"];
    assert Join(",", ["1", "2"]) == "1" + "," + "2";
  }

  /** `DELETE_EVENTS_OF_HOST;<host>;<user>` names the host and the user. */
  lemma ParseDeleteOfHost(host: string, user: string)
    requires ';' !in host && ';' !in user
    ensures ParseCommand(CommandPrefix + "DELETE_EVENTS_OF_HOST;" + host + ";" + user) == Ok(DeleteEventsOfHost(host, user))
  {
    var c := DeleteEventsOfHost(host, user);
    var verb := "DELETE_EVENTS_OF_HOST";
    assert verb + ";" == "DELETE_EVENTS_OF_HOST;";
    var f := [verb, host, user];
    assert f[1..] == [host, user] && [host, user][1..] == [user];
    assert Join(";", [host, user]) == host + ";" + user;
    assert Join(";", f) == verb + ";" + (host + ";" + user);
    assert FormatCommand(c) == CommandPrefix + (verb + ";" + (host + ";" + user));
    ParseSent(c, CommandPrefix + "DELETE_EVENTS_OF_HOST;" + host + ";" + user);
  }

  /** A line equal to a sendable command's rendering parses to it. */
  lemma ParseSent(c: Command, line: string)
    requires Sendable(c) && FormatCommand(c) == line
    ensures ParseCommand(line) == Ok(c)
  {
    ParseFormat(c);
  }

  /** A line for another verb is refused. */
  lemma UnknownVerb()
    ensures ParseCommand("COMMAND RELOAD;x;testuser") == Err(UnknownCommand("RELOAD"))
  {
    var fields := ["RELOAD", "x", "testuser"];
    assert "COMMAND RELOAD;x;testuser"[8..] == Join(";", fields);
    SplitJoin(fields, ';');
  }

  /** The events of `events` not reported for `host`. */
  function WithoutHost(events: map<nat, Event>, host: string): (r: map<nat, Event>)
    ensures forall id :: id in r <==> id in events && events[id].host != host
    ensures forall id :: id in r ==> r[id] == events[id]
  {
    map id | id in events && events[id].host != host :: events[id]
  }

  /** The events of `events` whose ID is not listed. */
  function Deleted(events: map<nat, Event>, ids: seq<nat>): map<nat, Event>
  {
    events - (set i | i in ids)
  }

  /** The table of open events (`EventStatus`). */
  class EventStatus {
    var events: map<nat, Event>
    var nextId: nat

    /** Every event is filed under its own ID, which was handed out before. */
    predicate Valid()
      reads this
    {
      nextId >= 1 && forall id :: id in events ==> 1 <= id < nextId && events[id].id == id
    }

    constructor ()
      ensures Valid() && events == map[] && nextId == 1
    {
      events := map[];
      nextId := 1;
    }

    /** `new_event`: files the event under the next ID. */
    method NewEvent(host: string, text: string, coreHost: string) returns (id: nat)
      requires Valid()
      modifies this
      ensures Valid()
      ensures id == old(nextId) && id !in old(events)
      ensures events == old(events)[id := Event(id, host, text, coreHost)]
      ensures nextId == old(nextId) + 1
    {
      id := nextId;
      events := events[id := Event(id, host, text, coreHost)];
      nextId := nextId + 1;
    }

    /** `DELETE`: removes every listed event that exists; IDs without an
        event are ignored. */
    method DeleteEvents(ids: seq<nat>)
      requires Valid()
      modifies this
      ensures Valid() && nextId == old(nextId)
      ensures events == Deleted(old(events), ids)
    {
      events := Deleted(events, ids);
    }

    /** `DELETE_EVENTS_OF_HOST`: removes the events whose `host` is the
        given name (the core host is not consulted). */
    method DeleteEventsOfHost(host: string)
      requires Valid()
      modifies this
      ensures Valid() && nextId == old(nextId)
      ensures events == WithoutHost(old(events), host)
    {
      events := WithoutHost(events, host);
    }

    /** `handle_client` for one command line: parses and executes it; a
        line that does not parse changes nothing. */
    method HandleCommand(line: string) returns (r: Result<Command, CommandError>)
      requires Valid()
      modifies this
      ensures Valid() && nextId == old(nextId)
      ensures r == ParseCommand(line)
      ensures events == (if r.Ok? then Execute(old(events), r.value) else old(events))
    {
      r := ParseCommand(line);
      if r.Ok? {
        match r.value
        case Delete(ids, _) => DeleteEvents(ids);
        case DeleteEventsOfHost(host, _) => DeleteEventsOfHost(host);
      }
    }
  }

  /** The table after executing a parsed command. */
  function Execute(events: map<nat, Event>, c: Command): map<nat, Event>
  {
    match c
    case Delete(ids, _) => Deleted(events, ids)
    case DeleteEventsOfHost(host, _) => WithoutHost(events, host)
  }

  /** Deleting IDs removes exactly those events and leaves every other one
      as it was; deleting an ID a second time changes nothing. */
  lemma DeleteRemovesExactly(events: map<nat, Event>, ids: seq<nat>)
    ensures forall id :: id in Deleted(events, ids) <==> id in events && id !in ids
    ensures forall id :: id in Deleted(events, ids) ==> Deleted(events, ids)[id] == events[id]
    ensures Deleted(Deleted(events, ids), ids) == Deleted(events, ids)
  {
  }

  /** Deleting one existing ID shrinks the table by one. */
  lemma DeleteOneShrinks(events: map<nat, Event>, id: nat)
    requires id in events
    ensures |Deleted(events, [id]).Keys| == |events.Keys| - 1
  {
    assert (set i | i in [id]) == {id};
    assert Deleted(events, [id]).Keys == events.Keys - {id};
  }

  /** The line `COMMAND DELETE;<ids>;testuser`. */
  function DeleteLine(ids: seq<nat>): string
  {
    CommandPrefix + "DELETE;" + Join(",", IdTexts(ids)) + ";" + "testuser"
  }

  /** The tables of the tests, step by step. */
  lemma ScenarioSteps(e1: Event, e2: Event)
    requires e1.id == 1 && e2.id == 2
    ensures Execute(map[1 := e1], Delete([1], "testuser")) == map[]
    ensures Execute(map[1 := e1, 2 := e2], Delete([1, 2], "testuser")) == map[]
    ensures Execute(map[1 := e1, 2 := e2], Delete([2], "testuser")) == map[1 := e1]
    ensures Execute(map[1 := e1], Delete([1, 2], "testuser")) == map[]
    ensures e1.host == e2.host ==> Execute(map[1 := e1, 2 := e2], DeleteEventsOfHost(e1.host, "testuser")) == map[]
  {
    assert Deleted(map[1 := e1, 2 := e2], [2]) == map[1 := e1] by {
      assert (set i | i in [2]) == {2};
    }
  }

  /** The lines built from them are the tests' command lines. */
  lemma TestLines()
    ensures DeleteLine([1]) == "COMMAND DELETE;1;testuser"
    ensures DeleteLine([2]) == "COMMAND DELETE;2;testuser"
    ensures DeleteLine([1, 2]) == "COMMAND DELETE;1,2;testuser"
  {
    TestIdTexts();
    assert DeleteLine([1]) == CommandPrefix + "DELETE;" + "1" + ";" + "testuser";
    assert DeleteLine([2]) == CommandPrefix + "DELETE;" + "2" + ";" + "testuser";
    assert DeleteLine([1, 2]) == CommandPrefix + "DELETE;" + "1,2" + ";" + "testuser";
  }

  /** The first test: one event gets ID 1 and `DELETE;1` empties the
      table. */
  method DeleteEventScenario() returns (before: nat, after: nat)
    ensures before == 1 && after == 0
  {
    var status := new EventStatus();
    var id := status.NewEvent("ABC1", "not important", "ABC");
    var e1 := status.events[1];
    assert status.events == map[1 := e1];
    before := |status.events.Keys|;
    ParseDelete([1], "testuser");
    ScenarioSteps(e1, e1.(id := 2));
    var r := status.HandleCommand(DeleteLine([1]));
    after := |status.events.Keys|;
  }

  /** The second test: `DELETE;1,2` deletes both events. */
  method DeleteMultipleScenario() returns (before: nat, after: nat)
    ensures before == 2 && after == 0
  {
    var status := new EventStatus();
    var id1 := status.NewEvent("ABC1", "event1 text", "ABC");
    var id2 := status.NewEvent("ABC2", "event2 text", "ABC");
    var e1, e2 := status.events[1], status.events[2];
    assert status.events == map[1 := e1, 2 := e2];
    assert status.events.Keys == {1, 2};
    before := |status.events.Keys|;
    ParseDelete([1, 2], "testuser");
    ScenarioSteps(e1, e2);
    var r := status.HandleCommand(DeleteLine([1, 2]));
    after := |status.events.Keys|;
  }

  /** The third test: deleting ID 2 leaves event 1; a later `DELETE;1,2`
      deletes event 1 and ignores the missing 2. */
  method DeletePartiallyExistingScenario() returns (first: nat, second: nat, third: nat)
    ensures first == 2 && second == 1 && third == 0
  {
    var status := new EventStatus();
    var id1 := status.NewEvent("ABC1", "event1 text", "ABC");
    var id2 := status.NewEvent("ABC2", "event2 text", "ABC");
    var e1, e2 := status.events[1], status.events[2];
    assert status.events == map[1 := e1, 2 := e2];
    assert status.events.Keys == {1, 2};
    first := |status.events.Keys|;
    ParseDelete([2], "testuser");
    ParseDelete([1, 2], "testuser");
    ScenarioSteps(e1, e2);
    var r := status.HandleCommand(DeleteLine([2]));
    assert status.events.Keys == {1};
    second := |status.events.Keys|;
    r := status.HandleCommand(DeleteLine([1, 2]));
    third := |status.events.Keys|;
  }

  /** The fourth test: both events of host ABC1 go, although their core
      host is ABC. */
  method DeleteEventsOfHostScenario() returns (before: nat, after: nat)
    ensures before == 2 && after == 0
  {
    var status := new EventStatus();
    var id1 := status.NewEvent("ABC1", "event1 text", "ABC");
    var id2 := status.NewEvent("ABC1", "event2 text", "ABC");
    var e1, e2 := status.events[1], status.events[2];
    assert status.events == map[1 := e1, 2 := e2];
    assert status.events.Keys == {1, 2};
    before := |status.events.Keys|;
    ParseDeleteOfHost("ABC1", "testuser");
    ScenarioSteps(e1, e2);
    var r := status.HandleCommand(CommandPrefix + "DELETE_EVENTS_OF_HOST;" + "ABC1" + ";" + "testuser");
    after := |status.events.Keys|;
  }
}
