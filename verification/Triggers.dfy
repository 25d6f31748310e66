/** Chronological trigger plugins, and the one that is shipped. */
module Triggers {
  import opened Domain

  /** What calculating the occurrence after a given time comes to. */
  datatype Occurrence = Raises | Never | At(at: Time)

  /** The registered plugins: type, configuration and time to the next occurrence. */
  type Calendar = (string, Configuration, Time) -> Occurrence

  /******* The interval plugin *******/

  const INTERVAL := "interval"

  const INTERVAL_SECONDS := "interval_seconds"

  datatype IntervalError = NotAnInteger | NotPositive | UnexpectedKeys

  predicate HasIntegerSeconds(configuration: Configuration) {
    INTERVAL_SECONDS in configuration && configuration[INTERVAL_SECONDS].Integer?
  }

  /** A positive whole number of seconds, and nothing else. */
  ghost predicate ValidInterval(configuration: Configuration) {
    && HasIntegerSeconds(configuration)
    && configuration[INTERVAL_SECONDS].integer > 0
    && configuration.Keys == {INTERVAL_SECONDS}
  }

  method ValidateConfiguration(configuration: Configuration) returns (r: Result<(), IntervalError>)
    ensures r.Success? <==> ValidInterval(configuration)
    ensures r == Failure(NotAnInteger) <==> !HasIntegerSeconds(configuration)
    ensures r == Failure(NotPositive) <==>
              HasIntegerSeconds(configuration) && configuration[INTERVAL_SECONDS].integer <= 0
    ensures r == Failure(UnexpectedKeys) ==> exists key :: key in configuration && key != INTERVAL_SECONDS
  {
    if !(INTERVAL_SECONDS in configuration && configuration[INTERVAL_SECONDS].Integer?) {
      return Failure(NotAnInteger);
    }
    if configuration[INTERVAL_SECONDS].integer <= 0 {
      return Failure(NotPositive);
    }
    if configuration.Keys != {INTERVAL_SECONDS} {
      assert !(configuration.Keys <= {INTERVAL_SECONDS}) by {
        assert {INTERVAL_SECONDS} <= configuration.Keys;
      }
      return Failure(UnexpectedKeys);
    }
    return Success(());
  }

  /** `after + timedelta(seconds=...)`: any JSON number or flag counts as seconds, everything else is an error. */
  function NextOccurrence(configuration: Configuration, after: Time): Occurrence {
    if INTERVAL_SECONDS !in configuration then Raises
    else
      match configuration[INTERVAL_SECONDS]
      case Integer(seconds) => At(after + seconds as real)
      case Float(seconds) => At(after + seconds)
      case Bool(flag) => At(after + if flag then 1.0 else 0.0)
      case _ => Raises
  }

  function Interval(configuration: Configuration): Time
    requires HasIntegerSeconds(configuration)
  {
    configuration[INTERVAL_SECONDS].integer as real
  }

  /** The registry resolves `interval` to the shipped plugin; any other plugin may do as it likes. */
  ghost predicate RegistersInterval(calendar: Calendar) {
    forall configuration, after :: calendar(INTERVAL, configuration, after) == NextOccurrence(configuration, after)
  }

  predicate IsInterval(trigger: TriggerDefinition) {
    trigger.pluginType == INTERVAL && HasIntegerSeconds(trigger.configuration)
  }

  lemma IntervalMovesOn(calendar: Calendar, trigger: TriggerDefinition, after: Time)
    requires RegistersInterval(calendar) && IsInterval(trigger)
    ensures calendar(trigger.pluginType, trigger.configuration, after) == At(after + Interval(trigger.configuration))
  {
  }
}
