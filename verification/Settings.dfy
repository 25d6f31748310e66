/** The timing part of the configuration, in seconds. */
module Settings {
  import opened Domain

  datatype Timing = Timing(
    queueLeaseTimeout: Time,
    workerPollInterval: Time,
    workerHeartbeatInterval: Time,
    schedulerPollInterval: Time,
    reconciliationInterval: Time)

  datatype TimingError =
    | LeaseTimeoutNotPositive
    | PollIntervalNotPositive
    | HeartbeatIntervalNotPositive
    | SchedulerIntervalNotPositive
    | ReconciliationIntervalNotPositive
    | LeaseTooShort

  ghost predicate AllPositive(timing: Timing) {
    && timing.queueLeaseTimeout > 0.0
    && timing.workerPollInterval > 0.0
    && timing.workerHeartbeatInterval > 0.0
    && timing.schedulerPollInterval > 0.0
    && timing.reconciliationInterval > 0.0
  }

  ghost predicate ValidTiming(timing: Timing) {
    AllPositive(timing) && timing.queueLeaseTimeout >= 3.0 * timing.workerHeartbeatInterval
  }

  /** The first timing, in the order of the fields, that is not positive; the lease is only measured when all are. */
  ghost predicate Blames(timing: Timing, error: TimingError) {
    match error
    case LeaseTimeoutNotPositive => timing.queueLeaseTimeout <= 0.0
    case PollIntervalNotPositive => timing.queueLeaseTimeout > 0.0 && timing.workerPollInterval <= 0.0
    case HeartbeatIntervalNotPositive =>
      timing.queueLeaseTimeout > 0.0 && timing.workerPollInterval > 0.0 && timing.workerHeartbeatInterval <= 0.0
    case SchedulerIntervalNotPositive =>
      && timing.queueLeaseTimeout > 0.0 && timing.workerPollInterval > 0.0 && timing.workerHeartbeatInterval > 0.0
      && timing.schedulerPollInterval <= 0.0
    case ReconciliationIntervalNotPositive =>
      && timing.queueLeaseTimeout > 0.0 && timing.workerPollInterval > 0.0 && timing.workerHeartbeatInterval > 0.0
      && timing.schedulerPollInterval > 0.0 && timing.reconciliationInterval <= 0.0
    case LeaseTooShort => AllPositive(timing) && timing.queueLeaseTimeout < 3.0 * timing.workerHeartbeatInterval
  }

  method ValidateTiming(timing: Timing) returns (r: Result<(), TimingError>)
    ensures r.Success? <==> ValidTiming(timing)
    ensures r.Failure? ==> Blames(timing, r.error)
  {
    if !(timing.queueLeaseTimeout > 0.0) {
      return Failure(LeaseTimeoutNotPositive);
    }
    if !(timing.workerPollInterval > 0.0) {
      return Failure(PollIntervalNotPositive);
    }
    if !(timing.workerHeartbeatInterval > 0.0) {
      return Failure(HeartbeatIntervalNotPositive);
    }
    if !(timing.schedulerPollInterval > 0.0) {
      return Failure(SchedulerIntervalNotPositive);
    }
    if !(timing.reconciliationInterval > 0.0) {
      return Failure(ReconciliationIntervalNotPositive);
    }
    if timing.queueLeaseTimeout < 3.0 * timing.workerHeartbeatInterval {
      return Failure(LeaseTooShort);
    }
    return Success(());
  }
}
