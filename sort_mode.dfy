/** The three list orders of the desktop view and their two encodings: the
    drop-down index and the key stored in the preferences file. */
module SortModes {

  newtype u32 = x: int | 0 <= x < 0x1_0000_0000

  datatype SortMode = Topic | Location | Date

  /** `SortMode::from_index`: every index other than 1 and 2 means `Topic`. */
  function FromIndex(index: u32): (m: SortMode)
    ensures index == 1 <==> m == Location
    ensures index == 2 <==> m == Date
    ensures index != 1 && index != 2 <==> m == Topic
  {
    match index
    case 1 => Location
    case 2 => Date
    case _ => Topic
  }

  /** `SortMode::to_index`; decoding its result gives the mode back. */
  function ToIndex(m: SortMode): (index: u32)
    ensures FromIndex(index) == m
    ensures index <= 2
  {
    match m
    case Topic => 0
    case Location => 1
    case Date => 2
  }

  /** `SortMode::from_key`: every key other than "location" and "date" means `Topic`. */
  function FromKey(key: string): (m: SortMode)
    ensures key == "location" <==> m == Location
    ensures key == "date" <==> m == Date
    ensures key != "location" && key != "date" <==> m == Topic
  {
    if key == "location" then Location
    else if key == "date" then Date
    else Topic
  }

  /** `SortMode::as_key`; decoding its result gives the mode back. */
  function AsKey(m: SortMode): (key: string)
    ensures FromKey(key) == m
    ensures key in {"topic", "location", "date"}
  {
    match m
    case Topic => "topic"
    case Location => "location"
    case Date => "date"
  }

  /** The encodings are onto their canonical values: encoding a decoded canonical value is the identity. */
  lemma CanonicalRoundTrips(index: u32, key: string)
    ensures index <= 2 ==> ToIndex(FromIndex(index)) == index
    ensures key in {"topic", "location", "date"} ==> AsKey(FromKey(key)) == key
  {
  }
}
