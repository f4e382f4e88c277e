module CommandUnits {

  /** The name of a transient unit, derived injectively from the Run and command it serves;
      its control group is derived injectively from the unit in turn. */
  datatype Unit = Unit(runId: string, commandId: string)
}
