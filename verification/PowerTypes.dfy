/** Vocabulary shared by the models of the plugin's controllers. */
module PowerTypes {

  datatype PowerState =
    | Unknown
    | Off
    | Standby
    | On
    | StandbyLightSleep
    | StandbyDeepSleep

  datatype Error =
    | NoError
    | General
    | InvalidParameter
    | IllegalState
    | Aborted

  datatype Option<+T> = None | Some(value: T)

  /** What the outside answers when a change is applied: the platform call, and the override file. */
  datatype Platform = Platform(ok: bool, ignoreDeepSleep: bool)

  /** A change is synchronous only from deep sleep to light sleep. */
  predicate IsSyncStateChange(from: PowerState, to: PowerState) {
    from == StandbyDeepSleep && to == StandbyLightSleep
  }
}
