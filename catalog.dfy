/** The values the session browser works on: Swift's optional, a conference
    session as the data store delivers it, and the Foundation string services
    the filter relies on, kept abstract. */
module Catalog {

  /** Swift's `Optional`: `nil` or a wrapped value. */
  datatype Option<+T> = Nil | Some(value: T)

  /** A session (or event) of the catalog. Only the fields the browsing logic
      reads are kept; `hdUrl` is the optional download URL (`hd_url`). */
  datatype Session = Session(
    title: string,
    track: string,
    year: int,
    focus: seq<string>,
    hdUrl: Option<string>)

  /** The Foundation behaviour the filter depends on, passed in rather than
      defined here:
      - `toInt`: `String.toInt()`, `Nil` when the text is not an integer;
      - `boolValue`: `NSString.boolValue`;
      - `lowercase`: `String.lowercaseString`;
      - `fold`: the key under which `rangeOfString` with
        `.CaseInsensitiveSearch | .DiacriticInsensitiveSearch` compares text;
      - `parseQualifiers`: the qualifier parser applied to a search term with the
        keys year, focus, track and downloaded; free text comes back under `_query`. */
  datatype Foundation = Foundation(
    toInt: string -> Option<int>,
    boolValue: string -> bool,
    lowercase: string -> string,
    fold: string -> string,
    parseQualifiers: string -> map<string, string>)

  /** `needle` occurs as a contiguous block of `haystack`. */
  predicate Contains(haystack: string, needle: string)
  {
    exists i :: 0 <= i <= |haystack| && needle <= haystack[i..]
  }
}
