/** Names shared by the models. */
module Common {

  datatype Option<+T> = None | Some(value: T)

  /** Class number and position within the class. */
  datatype RecordId = RecordId(classId: nat, position: nat)

  /** The default-constructed record id, which the code uses as "no record". */
  const NO_RECORD := RecordId(0, 0)
}
