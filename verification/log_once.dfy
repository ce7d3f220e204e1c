/** `makeLogValueOnce` of bezier-canvas/js/modules/utils.mjs: a logger that
    remembers the fingerprints of the values it has logged and stays silent
    for a remembered one. In 'single' mode it remembers only the last one. */
module LogOnce {
  import opened Wrappers

  /** The options object `{ mode }`; a missing key is `None`. */
  datatype LogOptions = LogOptions(mode: Option<string>)

  /** No two consecutive entries are equal. */
  ghost predicate NoRepeats<V>(s: seq<V>)
  {
    forall i :: 0 < i < |s| ==> s[i - 1] != s[i]
  }

  /** No two entries are equal. */
  ghost predicate Distinct<V>(s: seq<V>)
  {
    forall i, j :: 0 <= i < j < |s| ==> s[i] != s[j]
  }

  /** The closure returned by `makeLogValueOnce(options)`. Values are
      compared by their `JSON.stringify` fingerprint, modelled as equality of
      `V`; `output` is what has been written to the console. */
  class LogValueOnce<V(==)> {
    const mode: Option<string>
    var valuesIds: set<V>
    var output: seq<V>

    predicate Single()
    {
      mode == Some("single")
    }

    /** Single mode remembers exactly the last value logged; any other mode
        remembers every value logged, and has logged each of them once. */
    ghost predicate Valid()
      reads this
    {
      if Single() then
        valuesIds == (if output == [] then {} else {output[|output| - 1]}) && NoRepeats(output)
      else
        valuesIds == (set i | 0 <= i < |output| :: output[i]) && Distinct(output)
    }

    /** `makeLogValueOnce(options)`: with no argument the mode is 'single';
        an argument without a `mode` leaves it undefined. */
    constructor(options: Option<LogOptions>)
      ensures mode == (if options.None? then Some("single") else options.value.mode)
      ensures valuesIds == {} && output == [] && Valid()
    {
      mode := if options.None? then Some("single") else options.value.mode;
      valuesIds := {};
      output := [];
    }

    /** One call of the closure with `values`. */
    method Log(values: V) returns (logged: bool)
      requires Valid()
      modifies this
      ensures Valid()
      ensures logged <==> values !in old(valuesIds)
      ensures !logged ==> valuesIds == old(valuesIds) && output == old(output)
      ensures logged ==> output == old(output) + [values] && values in valuesIds
      ensures logged ==> valuesIds == if Single() then {values} else old(valuesIds) + {values}
      ensures Single() ==> |valuesIds| <= 1
      ensures Single() ==> (logged <==> old(output) == [] || values != old(output)[|old(output)| - 1])
      ensures !Single() ==> (logged <==> values !in old(output))
    {
      if values in valuesIds {
        logged := false;
        return;
      }
      if mode == Some("single") {
        valuesIds := {};
      }
      valuesIds := valuesIds + {values};
      output := output + [values];
      logged := true;
      if !Single() {
        var listed := set i | 0 <= i < |output| :: output[i];
        forall v | v in valuesIds
          ensures v in listed
        {
          if v == values {
            assert output[|output| - 1] == v;
          } else {
            var i :| 0 <= i < |old(output)| && old(output)[i] == v;
            assert output[i] == v;
          }
        }
        forall i | 0 <= i < |output|
          ensures output[i] in valuesIds
        {
          if i < |old(output)| {
            assert old(output)[i] in old(valuesIds);
          }
        }
      }
    }
  }
}
