/** What every part of the driver model shares. */
module Machine {

  datatype Option<+T> = None | Some(value: T)

  /** Bytes in an AMX cell. */
  const CELL: nat := 8

  /** VM data memory: which addresses are mapped, and the cell there. */
  type Memory = map<nat, nat>
}
