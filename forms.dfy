/** Request inputs as the Flask handlers see them: optional form, query and JSON
    fields, and optional uploaded files. */
module Forms {

  datatype Option<T> = None | Some(value: T)

  /** Python truthiness of an optional string field: `not x` holds for a
      missing field and for the empty string. */
  predicate Truthy(s: Option<string>) {
    s.Some? && s.value != ""
  }

  /** An uploaded file part; only its client-side filename matters here. */
  datatype Upload = Upload(filename: string)

  /** A werkzeug file part is falsy when it is missing or has an empty filename. */
  predicate FilePresent(f: Option<Upload>) {
    f.Some? && f.value.filename != ""
  }

  /** `str(x)` as an f-string renders it: a missing value becomes "None". */
  function PyStr(s: Option<string>): string {
    match s
    case Some(v) => v
    case None => "None"
  }

  /** `s.endswith(suffix)`, case-sensitive. */
  predicate EndsWith(s: string, suffix: string) {
    |suffix| <= |s| && s[|s| - |suffix|..] == suffix
  }
}
