/**
 * The words after a chat command (`context.args`). The text of a word is
 * kept as it is; what `int(word)` and `float(word)` make of it is carried
 * beside it, None where the conversion raises ValueError. The float value
 * is the one the Numeric(16, 8) column stores, in units of 10^-8 coin.
 */
module CommandArgs {
  import opened Wrappers
  import opened Database

  datatype Token = Token(text: string, asInt: Option<int>, asUnits: Option<Units>)

  /**
   * `int(args[i])`: None when the word is missing (IndexError) or is not
   * an integer (ValueError).
   */
  function IntArg(args: seq<Token>, i: nat): (r: Option<int>)
    ensures r.Some? <==> i < |args| && args[i].asInt.Some?
    ensures r.Some? ==> r.value == args[i].asInt.value
  {
    if i < |args| then args[i].asInt else None
  }

  /** `float(args[i])`, as stored in a Numeric(16, 8) column. */
  function UnitsArg(args: seq<Token>, i: nat): (r: Option<Units>)
    ensures r.Some? <==> i < |args| && args[i].asUnits.Some?
    ensures r.Some? ==> r.value == args[i].asUnits.value
  {
    if i < |args| then args[i].asUnits else None
  }
}
