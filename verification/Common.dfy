/** Machine-word sizes, error numbers and an option type. */
module Common {
  const U32 := 0x1_0000_0000
  const U64 := 0x1_0000_0000_0000_0000

  const ENOMEM := 12
  const EINVAL := 22
  const EOVERFLOW := 75

  datatype Option<T> = None | Some(value: T)
}
