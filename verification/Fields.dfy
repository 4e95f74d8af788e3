/** How the fields of a request bear on the fields of a record. */
module Fields {
  import opened IdLists

  /** A text that is given replaces the old one. */
  predicate Takes(was: string, want: string, now: string) {
    now == if want == "" then was else want
  }

  /** An unset field of a new record gets the default. */
  predicate Defaulted(given: string, default: string, now: string) {
    now == if given == "" then default else given
  }

  /** A time that is not given is the present one. */
  predicate Stamped(given: int, now: int, stamp: int) {
    stamp == if given == 0 then now else given
  }

  /** A positive limit replaces the old one. */
  predicate Raised(was: int, want: int, now: int) {
    now == if want <= 0 then was else want
  }

  /** A positive limit is set where there was none. */
  predicate Filled(was: int, want: int, now: int) {
    now == if was != 0 || want <= 0 then was else want
  }

  predicate FilledReal(was: real, want: real, now: real) {
    now == if was != 0.0 || want <= 0.0 then was else want
  }

  type Document = map<string, string>

  /** Each key that is given holds what is given; the others hold what they held. */
  ghost predicate Merges(was: Option<Document>, want: Option<Document>, now: Option<Document>) {
    if want.None? then now == was
    else
      now.Some?
      && (forall k :: k in want.value ==> k in now.value && now.value[k] == want.value[k])
      && (forall k :: k !in want.value && was.Some? && k in was.value ==>
            k in now.value && now.value[k] == was.value[k])
      && (forall k :: k in now.value ==> k in want.value || (was.Some? && k in was.value))
  }
}
