# ASCII-art plugin core, modelled in Dafny

The plugin answers the `/ascii` chat command. It turns a quoted image into
"ASCII art" and returns that art as a new image. This project models the
parts of `main.py` that compute something:

* **The command tokenizer.** `_parse_command_params` splits the message on
  whitespace and walks the tokens with a cursor. `--width` and `--charset`
  consume the next token as their value. `--chinese` is a switch and
  consumes nothing. Any other token is skipped. A width is kept only when
  `int()` accepts it and it lies within `[min_width, max_width]`.
* **The dispatch in `ascii_command`.** Chinese mode uses the user's charset
  only when one was given; otherwise it uses the Chinese default charset.
* **Grid sizing.** With no width given, the automatic grid width is
  `max(100, min(w // 6, 300))` for Latin glyphs and
  `max(50, min(w // 10, 150))` for Chinese glyphs. The grid height keeps
  the image's aspect ratio. The canvas is the grid size times the glyph
  size.
* **Quantization and row assembly.** With `step = 256 // len(charset)`,
  each grey value 0..255 becomes `charset[min(gray / step, n - 1)]`. Each
  grid row becomes one line ended by `"\n"`.
* **Drawing.** The text is split on `"\n"`. Each non-empty piece `i` is
  drawn at `(0, i * char_height)`.

The code has no scale factor, no output-size ceiling and no glyph-aspect
correction of the grid height. The model adds none of them.

Modules: `Wrappers` (Option, Result), `Arith` (Min, Max and integer facts), `PyStr` (the Python `str` built-ins
the core calls: `split()`, `split(sep)`, `int()`), `Sizing`, `Quantize`,
`Render` (the two `_sync_convert_image_to_ascii*` methods, as one method
with a `Mode`), and `Command`.

## Model

| member | source | states |
|---|---|---|
| `Command.InitConfig` | main.py:34-45 | each setting, key by key, is the configured value when present and its default when absent (`--width`, `--charset`, `--chinese`, `@#S%?*+;:,.`, the Chinese ramp, limits 50 and 300); the default width is None when absent or 0, through `or None`, and otherwise the configured one |
| `Command.NoFlagsKeepDefaults` | main.py:568-573 | the initial `params` are the configured width and charset, Chinese off and no charset specified, and a message without any flag leaves them so |
| `Command.Advance` | main.py:582-607 | the cursor strictly advances, by two exactly when a width or charset flag has a following token, else by one, and never passes the end |
| `Command.ParseCommandParams` | main.py:556-608 | the loop over the whitespace tokens leaves exactly the parameters of the cursor walk `Scan` from the defaults |
| `Command.ValueNotRescanned` | main.py:590-598 | a token consumed as a width or charset value is never visited by the cursor |
| `Command.EveryTokenSeenOrConsumed` | main.py:578-607 | every token is either visited by the cursor or is the value right after a flag that consumed it |
| `Command.WidthIsLastAccepted` | main.py:582-591 | the width is the value of the last visited `--width` whose value `int()` accepts within `[min_width, max_width]`; with no such flag it is unchanged (that a rejected value still consumes its token is stated by `Command.Advance` and `Command.ValueNotRescanned`) |
| `Command.CharsetIsLastGiven` | main.py:594-599 | the charset is the token after the last visited charset flag, and `charset_specified` is set exactly then; otherwise both stay unchanged |
| `Command.ChineseIffFlagSeen` | main.py:602-605 | `use_chinese` ends up true if and only if it was already true or a visited token is the Chinese switch |
| `Command.DefaultWidthWithinLimits` | main.py:44-45 | under the default settings the parsed width is automatic (None) or lies in 50..300 |
| `Command.ChooseRequest` | main.py:666-680 | Chinese mode is chosen exactly when the switch is set; in Chinese mode the user's charset is used if and only if one was specified, otherwise the Chinese default; the width passes through unchanged |
| `Command.CharsetFromMessage` | main.py:666-669 | from the message text: with no charset flag the converter gets its mode's default charset, otherwise the token after the last charset flag |
| `PyStr.SplitWords` | main.py:576 | `message_text.split()` yields only non-empty words without whitespace |
| `PyStr.SplitSpacedWords` | main.py:576 | any text made of words with whitespace of any kind and length before, between and after them splits into exactly those words, in order |
| `PyStr.ParseInt` | main.py:585 | `int(token)` gives a value only when, after an optional sign, the token starts and ends with a digit and every other character is a digit or an underscore followed by a digit, and it has at most 4300 digits; a negative value comes only from a leading `-`; a token of at most 4300 plain digits gives their decimal value |
| `PyStr.ParseShowInt` | main.py:585 | `int(str(n)) == n` for every integer of at most 4300 digits, the integers `str()` itself accepts |
| `PyStr.SplitOn` | main.py:849 | `result.split("\n")` gives at least one piece, and no piece holds the separator |
| `PyStr.JoinSplit` | main.py:956 | joining the pieces of `split(sep)` with `sep` gives back the string |
| `Sizing.AutoWidth` | main.py:759-760 | the automatic width lies in 100..300 for Latin glyphs and in 50..150 for Chinese glyphs |
| `Sizing.GridWidth` | main.py:868-870 | an explicit width passes through unchanged; otherwise the mode's automatic width, within the mode's bounds |
| `Sizing.AutoWidthFollowsImage` | main.py:869-870 | the automatic width never decreases as the image widens, and between the clamps it equals image width // 6 (Latin) or // 10 (Chinese) |
| `Sizing.GridHeight` | main.py:763-765 | the grid height `h` is the floor of `image.height * grid_width / image.width`: `h * W <= H * w < (h + 1) * W` |
| `Sizing.GridHeightKeepsAspect` | main.py:873-875 | a square image gives a square grid; a landscape image gives no more rows than columns; a portrait image gives no fewer |
| `Quantize.CharIndex` | main.py:782 | the ramp index lies in `[0, n - 1]`, and grey 0 takes index 0 |
| `Quantize.CharIndexBuckets` | main.py:776-782 | index `k` covers the greys from `k * step` up to, but not including, `(k + 1) * step`; the last index also covers every grey from `(n - 1) * step` upward |
| `Quantize.CharIndexMonotone` | main.py:782 | the index is non-decreasing in the grey value |
| `Quantize.RowText` | main.py:779-783 | a row's line has one character per cell, and character `j` is the ramp character of cell `j` |
| `Quantize.Rows` | main.py:778-784 | there is one line per grid row, and line `i` is the line of row `i` |
| `Quantize.QuantizeRow` | main.py:779-783 | the loop over one row raises ZeroDivisionError exactly when the row has a cell and the ramp is longer than 256; otherwise it returns the row's line |
| `Quantize.BuildText` | main.py:772-784 | the nested loop raises ZeroDivisionError exactly when the ramp is empty, or longer than 256 on a grid with at least one cell; otherwise it returns the art text |
| `Quantize.ArtTextUsesRamp` | main.py:778-784 | every character of the art text is a ramp character or `"\n"` |
| `Quantize.SingleCharacterRamp` | main.py:776-783 | with a one-character ramp every cell becomes that character |
| `Quantize.ArtTextLength` | main.py:778-784 | the art text is `new_height * (new_width + 1)` characters long |
| `Quantize.ArtTextLines` | main.py:849 | splitting the art text on `"\n"` gives exactly the `new_height` row lines, each `new_width` long, then one empty piece |
| `Render.DrawLines` | main.py:850-853 | the drawing loop issues exactly the draws of enumerate-and-skip-empty over the lines |
| `Render.PlacementsOfFullLines` | main.py:957-960 | with no empty line, line `i` is drawn at `(0, i * char_height)` and nothing else is drawn |
| `Render.PlacementsOfEmptyLines` | main.py:851 | empty lines draw nothing |
| `Render.RowsFitCanvas` | main.py:841-853 | every drawn line starts at x = 0, lies within the canvas height, and spans the canvas width at `char_width` per glyph |
| `Render.ArtDraws` | main.py:849-853 | drawing the split art text draws nothing when the grid is zero columns wide (a grid the conversion never reaches, since resizing refuses it); otherwise, with no `"\n"` in the ramp, it draws exactly one line per grid row, row `i` at `(0, i * char_height)`, all inside the canvas |
| `Render.Convert` | main.py:753-857 | the conversion (either mode; its Chinese twin is main.py:859-964) fails with the resize's ValueError exactly when `new_width` or `new_height` is below 1, and otherwise with ZeroDivisionError exactly when quantization does; on success the canvas is `new_width * char_width` by `new_height * char_height` and, with no `"\n"` in the ramp, row `i` is drawn at `(0, i * char_height)` and every draw fits the canvas |

## Left out

- Image work done by PIL is not modelled: `Image.open`, the LANCZOS `resize`, `convert("L")`, `getpixel`, `Image.new`, `draw.text` and `save`. `Render.Convert` takes the resampled grey grid as a given `new_height` x `new_width` grid of values 0..255. Of `resize` only its refusal of a target side below 1 (Pillow's "height and width must be > 0" ValueError) is modelled; Pillow is not part of this model.
- Font loading and glyph measurement are not modelled. They are foreign calls whose fallback chain is driven by exceptions. The glyph width and height are non-negative parameters. The fallback sizes 8x12 and 12x12, used only when measurement raises, are not modelled.
- Sizing.GridHeight: uses exact integer floor division. The source computes `int(img.height / img.width * width)` in floating point, which can come out one lower at an exact boundary. For example, 0.29 * 100 evaluates to 28.999999999999996.
- Quantize.CharIndex: uses integer division for `int(gray_value / step)`. For greys 0..255 and steps 1..256 the correctly rounded float quotient truncates to the same integer.
- PyStr.ParseInt: does not model the non-ASCII Unicode decimal digits that Python's `int()` also accepts, nor the surrounding whitespace it strips. Tokens from `split()` carry no whitespace. The digit limit is CPython's default `sys.int_max_str_digits` of 4300 (Python 3.11 on, and the 3.10.7, 3.9.14, 3.8.14 and 3.7.14 security releases); an interpreter without the limit, or one configured with another limit, is not modelled.
- Render.Convert: states the draw positions only for a ramp without `"\n"`. A configured default charset containing `"\n"` yields extra split pieces; the model computes them but states no shape for them.
- Render.Convert: requires a non-negative grid width. An explicit negative width, which only a configuration with a negative `min_width` or `default_width` lets through, would also be refused by the resize; that case is not modelled.
- Command.InitConfig: a setting is either absent or holds a value of the expected type. A key stored with a null or mistyped value is not modelled, nor are the two cache clean-up settings, which only the left-out clean-up task reads. The lemmas about `Config` hold for every configuration, including a default width of `Some(0)` that `InitConfig` never produces.
- `convert_image_to_ascii_chinese` substitutes a default charset when it is given None. The command never passes None, so this is not modelled.
- Host glue is not modelled. This covers output file naming (date and uuid), the `run_in_executor` async wrappers, `download_image`, the message-component walk and help reply in `ascii_command`, and temporary-file handling. All of it is I/O or framework code.
- The periodic cache clean-up task is not modelled. It works through asyncio, the filesystem and wall-clock time.
- The earlier copies of the same methods in `main.py` are not modelled separately. Python keeps the last definition in a class body, so the later copies are the ones modelled.
