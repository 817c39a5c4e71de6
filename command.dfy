/**
 * The command tokenizer `_parse_command_params` and the charset choice of
 * the `/ascii` command. The message is split on whitespace; a cursor walks
 * the tokens: the width and charset flags consume the token after them as
 * their value, the Chinese flag is a switch that consumes nothing, and any
 * other token is skipped.
 */
module Command {
  import opened Wrappers
  import opened PyStr
  import opened Sizing

  /** The plugin settings the tokenizer and the command read. */
  datatype Config = Config(
    widthParam: string,
    charsetParam: string,
    chineseParam: string,
    defaultWidth: Option<int>,
    defaultCharset: string,
    defaultChineseCharset: string,
    minWidth: int,
    maxWidth: int)

  /** The settings when the configuration sets none of them. */
  const DefaultConfig := Config(
    "--width", "--charset", "--chinese", None, "@#S%?*+;:,.",
    "爱你喜欢我他她它好美帅酷炫酷帅呆了棒赞优强牛厉害威武霸气萌萌哒赞赞赞顶顶顶神神神",
    50, 300)

  /** The settings the plugin's configuration gives; None where a key is absent. */
  datatype Settings = Settings(
    widthParam: Option<string>,
    charsetParam: Option<string>,
    chineseParam: Option<string>,
    defaultWidth: Option<int>,
    defaultCharset: Option<string>,
    defaultChineseCharset: Option<string>,
    minWidth: Option<int>,
    maxWidth: Option<int>)

  const NoSettings := Settings(None, None, None, None, None, None, None, None)

  /** `config.get(key, fallback)` */
  function Setting<T>(given: Option<T>, fallback: T): T
  {
    if given.Some? then given.value else fallback
  }

  /** `v` is what `config.get(key, fallback)` yields when the key holds `given`. */
  predicate GetsSetting<T(==)>(given: Option<T>, fallback: T, v: T)
  {
    (given.None? ==> v == fallback) && (given.Some? ==> v == given.value)
  }

  /**
   * `_init_config`: each setting falls back to its default when absent, and
   * `default_width` goes through `or None`, so a width of 0 means automatic.
   */
  function InitConfig(s: Settings): (cfg: Config)
    ensures GetsSetting(s.widthParam, "--width", cfg.widthParam)
    ensures GetsSetting(s.charsetParam, "--charset", cfg.charsetParam)
    ensures GetsSetting(s.chineseParam, "--chinese", cfg.chineseParam)
    ensures GetsSetting(s.defaultCharset, "@#S%?*+;:,.", cfg.defaultCharset)
    ensures GetsSetting(s.defaultChineseCharset, DefaultConfig.defaultChineseCharset, cfg.defaultChineseCharset)
    ensures GetsSetting(s.minWidth, 50, cfg.minWidth)
    ensures GetsSetting(s.maxWidth, 300, cfg.maxWidth)
    ensures cfg.defaultWidth != Some(0)
    ensures cfg.defaultWidth.Some? <==> s.defaultWidth.Some? && s.defaultWidth.value != 0
    ensures cfg.defaultWidth.Some? ==> cfg.defaultWidth == s.defaultWidth
    ensures s == NoSettings ==> cfg == DefaultConfig
  {
    Config(
      Setting(s.widthParam, DefaultConfig.widthParam),
      Setting(s.charsetParam, DefaultConfig.charsetParam),
      Setting(s.chineseParam, DefaultConfig.chineseParam),
      if Setting(s.defaultWidth, 0) == 0 then None else s.defaultWidth,
      Setting(s.defaultCharset, DefaultConfig.defaultCharset),
      Setting(s.defaultChineseCharset, DefaultConfig.defaultChineseCharset),
      Setting(s.minWidth, DefaultConfig.minWidth),
      Setting(s.maxWidth, DefaultConfig.maxWidth))
  }

  /** The `params` dictionary. A width of None asks for the automatic width. */
  datatype Params = Params(width: Option<int>, charset: string, useChinese: bool, charsetSpecified: bool)

  function Defaults(cfg: Config): Params
  {
    Params(cfg.defaultWidth, cfg.defaultCharset, false, false)
  }

  /** Token `k` is a width or charset flag with a token after it, so the cursor moves by two. */
  predicate ConsumesValue(cfg: Config, tokens: seq<string>, k: nat)
    requires k < |tokens|
  {
    (tokens[k] == cfg.widthParam || tokens[k] == cfg.charsetParam) && k + 1 < |tokens|
  }

  /** Where the cursor goes after looking at token `k`. */
  function Advance(cfg: Config, tokens: seq<string>, k: nat): (next: nat)
    requires k < |tokens|
    ensures k < next <= |tokens|
    ensures ConsumesValue(cfg, tokens, k) ==> next == k + 2
    ensures !ConsumesValue(cfg, tokens, k) ==> next == k + 1
  {
    if ConsumesValue(cfg, tokens, k) then k + 2 else k + 1
  }

  /** Token `k` is a width flag whose value `int()` accepts and that lies within the limits. */
  predicate AcceptsWidth(cfg: Config, tokens: seq<string>, k: nat)
    requires k < |tokens|
  {
    && tokens[k] == cfg.widthParam
    && k + 1 < |tokens|
    && ParseInt(tokens[k + 1]).Some?
    && cfg.minWidth <= ParseInt(tokens[k + 1]).value <= cfg.maxWidth
  }

  /** Token `k` sets the charset: the width check comes first, so a name shared with it never gets here. */
  predicate SetsCharset(cfg: Config, tokens: seq<string>, k: nat)
    requires k < |tokens|
  {
    tokens[k] == cfg.charsetParam && tokens[k] != cfg.widthParam && k + 1 < |tokens|
  }

  /** Token `k` turns the Chinese mode on. */
  predicate SetsChinese(cfg: Config, tokens: seq<string>, k: nat)
    requires k < |tokens|
  {
    tokens[k] == cfg.chineseParam && !ConsumesValue(cfg, tokens, k)
  }

  /** What looking at token `k` does to the parameters. */
  function Apply(cfg: Config, tokens: seq<string>, k: nat, p: Params): Params
    requires k < |tokens|
  {
    if AcceptsWidth(cfg, tokens, k) then p.(width := Some(ParseInt(tokens[k + 1]).value))
    else if ConsumesValue(cfg, tokens, k) && tokens[k] == cfg.widthParam then p
    else if SetsCharset(cfg, tokens, k) then p.(charset := tokens[k + 1], charsetSpecified := true)
    else if SetsChinese(cfg, tokens, k) then p.(useChinese := true)
    else p
  }

  /** The parameters after the cursor has walked from `from` to the end. */
  function Scan(cfg: Config, tokens: seq<string>, from: nat, p: Params): Params
    decreases |tokens| - from
  {
    if from >= |tokens| then p
    else Scan(cfg, tokens, Advance(cfg, tokens, from), Apply(cfg, tokens, from, p))
  }

  /** `_parse_command_params(message_text)` */
  method ParseCommandParams(cfg: Config, messageText: string) returns (params: Params)
    ensures params == Scan(cfg, SplitWords(messageText), 0, Defaults(cfg))
  {
    params := Defaults(cfg);
    var tokens := SplitWords(messageText);
    var i := 0;
    while i < |tokens|
      invariant 0 <= i <= |tokens|
      invariant Scan(cfg, tokens, i, params) == Scan(cfg, tokens, 0, Defaults(cfg))
    {
      var token := tokens[i];
      if token == cfg.widthParam && i + 1 < |tokens| {
        var widthVal := ParseInt(tokens[i + 1]);
        if widthVal.Some? && cfg.minWidth <= widthVal.value <= cfg.maxWidth {
          params := params.(width := Some(widthVal.value));
        }
        i := i + 2;
      } else if token == cfg.charsetParam && i + 1 < |tokens| {
        params := params.(charset := tokens[i + 1], charsetSpecified := true);
        i := i + 2;
      } else if token == cfg.chineseParam {
        params := params.(useChinese := true);
        i := i + 1;
      } else {
        i := i + 1;
      }
    }
  }

  // ---------------------------------------------------------------------
  // The cursor's path
  // ---------------------------------------------------------------------

  /** The cursor, started at `from`, stops at position `k`. */
  predicate Visits(cfg: Config, tokens: seq<string>, from: nat, k: nat)
    decreases |tokens| - from
  {
    from == k || (from < k && from < |tokens| && Visits(cfg, tokens, Advance(cfg, tokens, from), k))
  }

  lemma {:induction false} VisitsForward(cfg: Config, tokens: seq<string>, from: nat, k: nat)
    requires Visits(cfg, tokens, from, k)
    ensures from <= k
  {
  }

  /** A value consumed by a width or charset flag is never looked at as a flag. */
  lemma {:induction false} ValueNotRescanned(cfg: Config, tokens: seq<string>, from: nat, k: nat)
    requires k < |tokens|
    requires Visits(cfg, tokens, from, k)
    requires ConsumesValue(cfg, tokens, k)
    ensures !Visits(cfg, tokens, from, k + 1)
    decreases |tokens| - from
  {
    if from < k {
      ValueNotRescanned(cfg, tokens, Advance(cfg, tokens, from), k);
    } else if Visits(cfg, tokens, from, k + 1) {
      VisitsForward(cfg, tokens, k + 2, k + 1);
    }
  }

  /**
   * Every token is either looked at by the cursor or is the value right
   * after a flag that consumed it, never both: nothing is skipped unseen.
   */
  lemma {:induction false} EveryTokenSeenOrConsumed(cfg: Config, tokens: seq<string>, from: nat, k: nat)
    requires from <= k < |tokens|
    ensures Visits(cfg, tokens, from, k)
            || (k > from && Visits(cfg, tokens, from, k - 1) && ConsumesValue(cfg, tokens, k - 1))
    decreases |tokens| - from
  {
    if from < k {
      var next := Advance(cfg, tokens, from);
      if next <= k {
        EveryTokenSeenOrConsumed(cfg, tokens, next, k);
      }
    }
  }

  // ---------------------------------------------------------------------
  // What the walk leaves in each parameter
  // ---------------------------------------------------------------------

  /** Positions the cursor reaches past `from` are also reached from the next position. */
  lemma VisitsAfterStep(cfg: Config, tokens: seq<string>, from: nat, k: nat)
    requires from < |tokens|
    requires Visits(cfg, tokens, from, k) && k != from
    ensures Visits(cfg, tokens, Advance(cfg, tokens, from), k)
  {
  }

  /**
   * The width is the value of the last accepted width flag the cursor looks
   * at; with no accepted flag it stays as it was.
   */
  lemma {:induction false} WidthIsLastAccepted(cfg: Config, tokens: seq<string>, from: nat, p: Params)
    ensures var w := Scan(cfg, tokens, from, p).width;
      || (&& w == p.width
          && forall k: nat :: k < |tokens| && Visits(cfg, tokens, from, k) ==> !AcceptsWidth(cfg, tokens, k))
      || (exists k: nat ::
            && k < |tokens| && Visits(cfg, tokens, from, k) && AcceptsWidth(cfg, tokens, k)
            && w == Some(ParseInt(tokens[k + 1]).value)
            && forall k': nat :: k < k' < |tokens| && Visits(cfg, tokens, from, k') ==> !AcceptsWidth(cfg, tokens, k'))
    decreases |tokens| - from
  {
    if from >= |tokens| {
      forall k: nat | k < |tokens| && Visits(cfg, tokens, from, k) ensures false {
        VisitsForward(cfg, tokens, from, k);
      }
    } else {
      var next, q := Advance(cfg, tokens, from), Apply(cfg, tokens, from, p);
      WidthIsLastAccepted(cfg, tokens, next, q);
      var w := Scan(cfg, tokens, from, p).width;
      assert w == Scan(cfg, tokens, next, q).width;
      forall k: nat | k < |tokens| && Visits(cfg, tokens, next, k) ensures Visits(cfg, tokens, from, k) && from < k {
        VisitsForward(cfg, tokens, next, k);
      }
      if exists k: nat :: k < |tokens| && Visits(cfg, tokens, next, k) && AcceptsWidth(cfg, tokens, k) {
        var k: nat :| k < |tokens| && Visits(cfg, tokens, next, k) && AcceptsWidth(cfg, tokens, k)
          && w == Some(ParseInt(tokens[k + 1]).value)
          && forall k': nat :: k < k' < |tokens| && Visits(cfg, tokens, next, k') ==> !AcceptsWidth(cfg, tokens, k');
        forall k': nat | k < k' < |tokens| && Visits(cfg, tokens, from, k') ensures !AcceptsWidth(cfg, tokens, k') {
          VisitsAfterStep(cfg, tokens, from, k');
        }
      } else if AcceptsWidth(cfg, tokens, from) {
        forall k': nat | from < k' < |tokens| && Visits(cfg, tokens, from, k') ensures !AcceptsWidth(cfg, tokens, k') {
          VisitsAfterStep(cfg, tokens, from, k');
        }
      } else {
        forall k: nat | k < |tokens| && Visits(cfg, tokens, from, k) ensures !AcceptsWidth(cfg, tokens, k) {
          if k != from {
            VisitsAfterStep(cfg, tokens, from, k);
          }
        }
      }
    }
  }

  /**
   * The charset is the value after the last charset flag the cursor looks
   * at, and `charset_specified` is set exactly when there is one; with none
   * both stay as they were.
   */
  lemma {:induction false} CharsetIsLastGiven(cfg: Config, tokens: seq<string>, from: nat, p: Params)
    ensures var r := Scan(cfg, tokens, from, p);
      || (&& r.charset == p.charset && r.charsetSpecified == p.charsetSpecified
          && forall k: nat :: k < |tokens| && Visits(cfg, tokens, from, k) ==> !SetsCharset(cfg, tokens, k))
      || (exists k: nat ::
            && k < |tokens| && Visits(cfg, tokens, from, k) && SetsCharset(cfg, tokens, k)
            && r.charset == tokens[k + 1] && r.charsetSpecified
            && forall k': nat :: k < k' < |tokens| && Visits(cfg, tokens, from, k') ==> !SetsCharset(cfg, tokens, k'))
    decreases |tokens| - from
  {
    if from >= |tokens| {
      forall k: nat | k < |tokens| && Visits(cfg, tokens, from, k) ensures false {
        VisitsForward(cfg, tokens, from, k);
      }
    } else {
      var next, q := Advance(cfg, tokens, from), Apply(cfg, tokens, from, p);
      CharsetIsLastGiven(cfg, tokens, next, q);
      var r := Scan(cfg, tokens, from, p);
      assert r == Scan(cfg, tokens, next, q);
      forall k: nat | k < |tokens| && Visits(cfg, tokens, next, k) ensures Visits(cfg, tokens, from, k) && from < k {
        VisitsForward(cfg, tokens, next, k);
      }
      if exists k: nat :: k < |tokens| && Visits(cfg, tokens, next, k) && SetsCharset(cfg, tokens, k) {
        var k: nat :| k < |tokens| && Visits(cfg, tokens, next, k) && SetsCharset(cfg, tokens, k)
          && r.charset == tokens[k + 1] && r.charsetSpecified
          && forall k': nat :: k < k' < |tokens| && Visits(cfg, tokens, next, k') ==> !SetsCharset(cfg, tokens, k');
        forall k': nat | k < k' < |tokens| && Visits(cfg, tokens, from, k') ensures !SetsCharset(cfg, tokens, k') {
          VisitsAfterStep(cfg, tokens, from, k');
        }
      } else if SetsCharset(cfg, tokens, from) {
        forall k': nat | from < k' < |tokens| && Visits(cfg, tokens, from, k') ensures !SetsCharset(cfg, tokens, k') {
          VisitsAfterStep(cfg, tokens, from, k');
        }
      } else {
        forall k: nat | k < |tokens| && Visits(cfg, tokens, from, k) ensures !SetsCharset(cfg, tokens, k) {
          if k != from {
            VisitsAfterStep(cfg, tokens, from, k);
          }
        }
      }
    }
  }

  /** The Chinese switch ends up on exactly when it was on or the cursor looks at a Chinese flag. */
  lemma {:induction false} ChineseIffFlagSeen(cfg: Config, tokens: seq<string>, from: nat, p: Params)
    ensures Scan(cfg, tokens, from, p).useChinese
            <==> p.useChinese || exists k: nat :: k < |tokens| && Visits(cfg, tokens, from, k) && SetsChinese(cfg, tokens, k)
    decreases |tokens| - from
  {
    if from >= |tokens| {
      forall k: nat | k < |tokens| && Visits(cfg, tokens, from, k) ensures false {
        VisitsForward(cfg, tokens, from, k);
      }
    } else {
      var next, q := Advance(cfg, tokens, from), Apply(cfg, tokens, from, p);
      ChineseIffFlagSeen(cfg, tokens, next, q);
      forall k: nat | k < |tokens| && Visits(cfg, tokens, next, k) ensures Visits(cfg, tokens, from, k) {
        VisitsForward(cfg, tokens, next, k);
      }
      forall k: nat | k < |tokens| && Visits(cfg, tokens, from, k) && k != from ensures Visits(cfg, tokens, next, k) {
        VisitsAfterStep(cfg, tokens, from, k);
      }
    }
  }

  /** No token from `from` on is a flag. */
  predicate NoFlags(cfg: Config, tokens: seq<string>, from: nat)
  {
    forall k :: from <= k < |tokens| ==>
      tokens[k] != cfg.widthParam && tokens[k] != cfg.charsetParam && tokens[k] != cfg.chineseParam
  }

  /** Tokens that are no flag leave the parameters alone. */
  lemma {:induction false} ScanWithoutFlags(cfg: Config, tokens: seq<string>, from: nat, p: Params)
    requires NoFlags(cfg, tokens, from)
    ensures Scan(cfg, tokens, from, p) == p
    decreases |tokens| - from
  {
    if from < |tokens| {
      ScanWithoutFlags(cfg, tokens, Advance(cfg, tokens, from), p);
    }
  }

  /**
   * The initial `params`: the configured width and charset, Chinese off and
   * no charset given. A message without any flag leaves them so.
   */
  lemma NoFlagsKeepDefaults(cfg: Config, messageText: string)
    requires NoFlags(cfg, SplitWords(messageText), 0)
    ensures var p := Scan(cfg, SplitWords(messageText), 0, Defaults(cfg));
            && p.width == cfg.defaultWidth && p.charset == cfg.defaultCharset
            && !p.useChinese && !p.charsetSpecified
  {
    ScanWithoutFlags(cfg, SplitWords(messageText), 0, Defaults(cfg));
  }

  /** Under the default settings the parsed width is automatic or within 50..300. */
  lemma DefaultWidthWithinLimits(messageText: string)
    ensures var w := Scan(DefaultConfig, SplitWords(messageText), 0, Defaults(DefaultConfig)).width;
            w == None || (w.Some? && 50 <= w.value <= 300)
  {
    WidthIsLastAccepted(DefaultConfig, SplitWords(messageText), 0, Defaults(DefaultConfig));
  }

  // ---------------------------------------------------------------------
  // The /ascii command's dispatch
  // ---------------------------------------------------------------------

  /** What the command hands to a converter. */
  datatype Request = Request(mode: Mode, width: Option<int>, charset: string)

  /**
   * The Chinese converter gets the user's charset only when one was given,
   * otherwise the Chinese default; the Latin converter gets the parsed
   * charset, which is the Latin default when none was given.
   */
  function ChooseRequest(cfg: Config, p: Params): (req: Request)
    ensures req.mode == Chinese <==> p.useChinese
    ensures req.width == p.width
    ensures p.useChinese && p.charsetSpecified ==> req.charset == p.charset
    ensures p.useChinese && !p.charsetSpecified ==> req.charset == cfg.defaultChineseCharset
    ensures !p.useChinese ==> req.charset == p.charset
  {
    if p.useChinese then
      Request(Chinese, p.width, if p.charsetSpecified then p.charset else cfg.defaultChineseCharset)
    else Request(Ascii, p.width, p.charset)
  }

  /**
   * From the message to the converter's charset: the value after the last
   * charset flag when there is one, otherwise the mode's default.
   */
  lemma CharsetFromMessage(cfg: Config, messageText: string)
    ensures var tokens := SplitWords(messageText);
            var req := ChooseRequest(cfg, Scan(cfg, tokens, 0, Defaults(cfg)));
            (forall k: nat :: k < |tokens| && Visits(cfg, tokens, 0, k) ==> !SetsCharset(cfg, tokens, k))
            ==> req.charset == (if req.mode == Chinese then cfg.defaultChineseCharset else cfg.defaultCharset)
    ensures var tokens := SplitWords(messageText);
            var req := ChooseRequest(cfg, Scan(cfg, tokens, 0, Defaults(cfg)));
            forall k: nat :: LastCharsetFlag(cfg, tokens, k) ==> req.charset == tokens[k + 1]
  {
    var tokens := SplitWords(messageText);
    CharsetIsLastGiven(cfg, tokens, 0, Defaults(cfg));
  }

  /** Token `k` is the last charset flag the cursor, started at 0, looks at. */
  predicate LastCharsetFlag(cfg: Config, tokens: seq<string>, k: nat)
  {
    && k < |tokens| && Visits(cfg, tokens, 0, k) && SetsCharset(cfg, tokens, k)
    && forall k': nat :: k < k' < |tokens| && Visits(cfg, tokens, 0, k') ==> !SetsCharset(cfg, tokens, k')
  }
}
