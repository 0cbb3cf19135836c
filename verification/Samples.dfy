// The object and the settings of the runs that are written out.
module Samples {
  import opened Common
  import opened TrackerSpec

  const KEY := "default/app"

  function SpecOf(d: Time): Spec {
    Spec([], [], d, UPDATES_FLIPS)
  }

  function State(status: string): Cond {
    Cond(status, "")
  }
}
