/**
 * The round budget of the `画像` command: the last space-separated token of the
 * message when it is all digits, otherwise the configured default, clamped to
 * [0, 200].
 */
module Command {
  import opened Text
  import opened Config

  const MinQueryRounds: int := 0
  const MaxQueryRounds: int := 200

  /** `min(200, max(0, x))`. */
  function Clamp(x: int): (r: int)
    ensures MinQueryRounds <= r <= MaxQueryRounds
    ensures MinQueryRounds <= x <= MaxQueryRounds ==> r == x
    ensures x < MinQueryRounds ==> r == MinQueryRounds
    ensures x > MaxQueryRounds ==> r == MaxQueryRounds
  {
    var low := if x < MinQueryRounds then MinQueryRounds else x;
    if low > MaxQueryRounds then MaxQueryRounds else low
  }

  /** The budget asked for before clamping: `int(end_parm)` if it is all digits, else the default. */
  function RequestedRounds(messageStr: string, conf: Config): (n: int)
  {
    var endParm := LastToken(messageStr);
    if IsDigits(endParm) then ParseDecimal(endParm) else DefaultRounds(conf)
  }

  /** `target_query_rounds` as computed from the message text and the configuration. */
  function TargetQueryRounds(messageStr: string, conf: Config): (r: int)
    ensures MinQueryRounds <= r <= MaxQueryRounds
  {
    Clamp(RequestedRounds(messageStr, conf))
  }

  /** A trailing number after a space is the budget, capped at 200, whatever comes before it. */
  lemma TrailingNumberIsUsed(prefix: string, n: nat, conf: Config)
    ensures TargetQueryRounds(prefix + " " + ShowDecimal(n), conf) == if n <= MaxQueryRounds then n else MaxQueryRounds
  {
    var s := prefix + " " + ShowDecimal(n);
    var tok := LastToken(s);
    LastTokenIsTail(s);
    var d := ShowDecimal(n);
    assert s[|s| - |d|..] == d;
    assert s[|s| - |d| - 1] == ' ';
    assert tok == d;
    ParseShowRoundTrip(n);
  }

  /** When the last token is not all digits, the configured default is used, clamped. */
  lemma NonNumericTokenUsesDefault(messageStr: string, conf: Config)
    requires !IsDigits(LastToken(messageStr))
    ensures TargetQueryRounds(messageStr, conf) == Clamp(DefaultRounds(conf))
  {
  }

  /** A message ending in a space has an empty last token, so the default is used. */
  lemma TrailingSpaceUsesDefault(messageStr: string, conf: Config)
    requires messageStr != [] && messageStr[|messageStr| - 1] == ' '
    ensures TargetQueryRounds(messageStr, conf) == Clamp(DefaultRounds(conf))
  {
    LastTokenIsTail(messageStr);
    assert LastToken(messageStr) == [];
  }

  /** With no configured value and no number in the message, the budget is 10 rounds. */
  lemma UnconfiguredDefaultIsTen(messageStr: string, conf: Config)
    requires conf.maxQueryRounds.None?
    requires !IsDigits(LastToken(messageStr))
    ensures TargetQueryRounds(messageStr, conf) == 10
  {
  }
}
