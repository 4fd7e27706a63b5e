/** What a store finds when it reads its browser-storage key. Reading and
    writing the storage itself is not modelled; a load receives the outcome. */
module Storage {
  /** `NoWindow`: rendering on the server; `Absent`: no entry (or an empty
      one); `Unparseable`: the JSON did not parse; `Parsed`: the stored value. */
  datatype Stored<T> = NoWindow | Absent | Unparseable | Parsed(value: T)
}
