/**
 * `formatParamKey` of src/oto/utils.ts: a parameter key loses one leading
 * underscore.
 */
module ParamKeys {

  predicate Underscored(key: string) {
    |key| > 0 && key[0] == '_'
  }

  /** The key without its leading underscore, if it has one. */
  function FormatParamKey(key: string): (r: string)
    ensures Underscored(key) ==> |r| == |key| - 1
    ensures !Underscored(key) ==> r == key
    ensures |r| <= |key| && r == key[|key| - |r|..]
  {
    if Underscored(key) then key[1..] else key
  }

  /** Prefixing an underscore is undone. */
  lemma StripsOneUnderscore(key: string)
    ensures FormatParamKey("_" + key) == key
  {
    assert ("_" + key)[1..] == key;
  }

  /** Formatting twice is formatting once exactly when the key does not
      start with two underscores. */
  lemma TwiceIsOnce(key: string)
    ensures FormatParamKey(FormatParamKey(key)) == FormatParamKey(key)
        <==> !(|key| >= 2 && key[0] == '_' && key[1] == '_')
  {
    if |key| >= 2 && key[0] == '_' && key[1] == '_' {
      assert |FormatParamKey(FormatParamKey(key))| == |key| - 2;
    }
  }

  /** `__x` becomes `_x`, which becomes `x`. */
  lemma DoubleUnderscore()
    ensures FormatParamKey("__x") == "_x"
    ensures FormatParamKey("_x") == "x"
  {
    StripsOneUnderscore("_x");
    StripsOneUnderscore("x");
  }
}
