/** java.util.Properties (a string-to-string map changed in place) and
    Boolean.valueOf(String), as the driver uses them. */
module JavaUtil {
  import opened Outcomes

  /** Properties.getProperty(key) on the entries: null when the key is absent. */
  function Get(entries: map<string, string>, key: string): (r: Option<string>)
    ensures r.Some? <==> key in entries
    ensures r.Some? ==> r.value == entries[key]
  {
    if key in entries then Some(entries[key]) else None
  }

  /** Properties.getProperty(key, defaultValue). */
  function GetOrDefault(entries: map<string, string>, key: string, default: string): string {
    if key in entries then entries[key] else default
  }

  /** A Properties object. Callers share it by reference: the driver hands the
      caller's object to the connection, and both see every change. */
  class Properties {
    var entries: map<string, string>

    constructor ()
      ensures entries == map[]
    {
      entries := map[];
    }

    constructor Of(entries: map<string, string>)
      ensures this.entries == entries
    {
      this.entries := entries;
    }

    function GetProperty(key: string): Option<string>
      reads this
    {
      Get(entries, key)
    }

    predicate IsEmpty()
      reads this
    {
      entries == map[]
    }

    /** setProperty(key, value): adds the entry or overwrites the old value. */
    method SetProperty(key: string, value: string)
      modifies this
      ensures entries == old(entries)[key := value]
    {
      entries := entries[key := value];
    }

    /** remove(key): drops the entry if there is one. */
    method Remove(key: string)
      modifies this
      ensures entries == old(entries) - {key}
    {
      entries := entries - {key};
    }

    method Clear()
      modifies this
      ensures entries == map[]
    {
      entries := map[];
    }
  }

  /** Character.toUpperCase restricted to the ASCII letters. */
  function ToUpperAscii(c: char): char {
    if 'a' <= c <= 'z' then (c as int - 32) as char else c
  }

  /** String.equalsIgnoreCase with ASCII case folding. */
  predicate EqualsIgnoreCase(a: string, b: string) {
    |a| == |b| && forall i :: 0 <= i < |a| ==> a[i] == b[i] || ToUpperAscii(a[i]) == ToUpperAscii(b[i])
  }

  /** Boolean.valueOf(String): true exactly for "true" in any mix of letter
      cases, false for everything else and for null. */
  function BooleanValueOf(s: Option<string>): (b: bool)
    ensures b <==> s.Some? && |s.value| == 4
                   && s.value[0] in "tT" && s.value[1] in "rR"
                   && s.value[2] in "uU" && s.value[3] in "eE"
  {
    var r := s.Some? && EqualsIgnoreCase(s.value, "true");
    assert r ==> forall i :: 0 <= i < 4 ==> s.value[i] == "true"[i] || ToUpperAscii(s.value[i]) == ToUpperAscii("true"[i]);
    r
  }
}
