/** AsyncStorage, the device's persistent key-value store, as a map from
    keys to text. Every read and every write may fail; the caller passes
    in whether it does, since the cause lies outside the app. */
module Storage {

  /** What `getItem` delivers: a thrown error, `null` for a missing key,
      or the stored text. */
  datatype GetItemResult = ReadError | Absent | Item(text: string)

  class KeyValueStore {
    var items: map<string, string>

    constructor (initial: map<string, string>)
      ensures items == initial
    {
      items := initial;
    }

    /** `await AsyncStorage.setItem(key, value)`: on success the key holds
        `value` and every other key is as before; a failed write throws and
        leaves the store as it was. */
    method SetItem(key: string, value: string, fails: bool) returns (ok: bool)
      modifies this
      ensures ok == !fails
      ensures items == if ok then old(items)[key := value] else old(items)
    {
      ok := !fails;
      if ok {
        items := items[key := value];
      }
    }

    /** `await AsyncStorage.getItem(key)`: the stored text, `null` when the
        key was never written, or a thrown error; reading changes nothing. */
    method GetItem(key: string, fails: bool) returns (r: GetItemResult)
      ensures fails ==> r == ReadError
      ensures !fails && key in items ==> r == Item(items[key])
      ensures !fails && key !in items ==> r == Absent
    {
      if fails {
        r := ReadError;
      } else if key in items {
        r := Item(items[key]);
      } else {
        r := Absent;
      }
    }
  }
}
