/**
 * The agent's shared state and tools of agent/src/agent.py: a list of
 * proverbs that the tools read, extend and replace, each mutating tool
 * answering with a snapshot of the state.
 */
module Agent {

  /** ProverbsState: the list of proverbs written so far. */
  class ProverbsState {
    var proverbs: seq<string>

    /** A new state holds no proverbs. */
    constructor ()
      ensures proverbs == []
    {
      proverbs := [];
    }
  }

  /** The STATE_SNAPSHOT event a mutating tool returns: the state after the update. */
  datatype StateSnapshotEvent = StateSnapshot(proverbs: seq<string>)

  /** get_proverbs: the current list; the state is not changed. */
  method GetProverbs(state: ProverbsState) returns (r: seq<string>)
    ensures r == state.proverbs
  {
    r := state.proverbs;
  }

  /** add_proverbs: the given proverbs are appended after the existing ones, duplicates included. */
  method AddProverbs(state: ProverbsState, proverbs: seq<string>) returns (event: StateSnapshotEvent)
    modifies state
    ensures state.proverbs == old(state.proverbs) + proverbs
    ensures event == StateSnapshot(state.proverbs)
  {
    state.proverbs := state.proverbs + proverbs;
    event := StateSnapshot(state.proverbs);
  }

  /** set_proverbs: the list becomes exactly the given one, whatever it held before. */
  method SetProverbs(state: ProverbsState, proverbs: seq<string>) returns (event: StateSnapshotEvent)
    modifies state
    ensures state.proverbs == proverbs
    ensures event == StateSnapshot(state.proverbs)
  {
    state.proverbs := proverbs;
    event := StateSnapshot(state.proverbs);
  }

  const WeatherPrefix := "The weather in "
  const WeatherSuffix := " is sunny."

  /** get_weather: a fixed sentence around the location; it takes no state. */
  function GetWeather(location: string): (r: string)
    ensures |r| == |WeatherPrefix| + |location| + |WeatherSuffix|
    ensures r[..|WeatherPrefix|] == WeatherPrefix
    ensures r[|WeatherPrefix|..|r| - |WeatherSuffix|] == location
    ensures r[|r| - |WeatherSuffix|..] == WeatherSuffix
  {
    WeatherPrefix + location + WeatherSuffix
  }

  /** The report names its location: different locations give different reports. */
  lemma GetWeatherInjective(a: string, b: string)
    requires GetWeather(a) == GetWeather(b)
    ensures a == b
  {
    var r := GetWeather(a);
    assert a == r[|WeatherPrefix|..|r| - |WeatherSuffix|] == b;
  }
}
