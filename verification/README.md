# lla-material-icons in Dafny

A model of the two scripts of lla-material-icons that turn Google Material
Symbols SVG files into 500×500 PNG icons.

- **`icon_generator.py` — the icon generator.** For every icon directory of the
  Material Symbols checkout and every one of four colour schemes, it does
  the following:
  - finds the outlined SVG, preferring the largest size;
  - recolours the markup, using six literal replacements of black fills and
    then regular-expression rewrites that add a `fill` attribute to `<path>`
    and to the basic shapes;
  - renders the markup at 250×250;
  - pastes the result at the centre of a transparent or solid canvas;
  - saves the result under `icons/<scheme>/<icon>-<scheme>.png`.

  The batch run counts successes and collects the failures.
- **`convert_svg.py` — a stand-alone converter.** It renders one SVG at a
  53:47 aspect ratio, centres it on a transparent square canvas and exits
  with 0 or 1.

Module layout:

- `Wrappers`: `Option` and `Result`.
- `Text`: where a string occurs in another, and the "separated" relation
  that ensures a replacement text can never re-create a searched-for one.
- `Recolor`: `recolor_svg`.
  - Each of the twelve substitutions is a `Pattern`.
  - `SubFrom` is the left-to-right, non-overlapping scan shared by
    `str.replace` and `re.sub`.
  - `MatchAt` decides whether the pattern matches at one position and what
    replaces the match.
  - The two tag patterns follow the regular-expression engine's
    backtracking: the `\s+` run is tried from its longest length down to
    one. Then the lazy group extends to the first `d="` (for paths) or to
    the first `>` (for shapes).
  - The shape patterns' lookahead `(?!.*fill=)` looks only at the rest of
    the current line.
- `Template`: how `re.sub` reads its replacement string (Python 3.12's
  rules). `\1` and `\g<1>` name the pattern's group, `\g<0>` the whole
  match, and a malformed escape makes `re.sub` raise. The colour is spliced
  into the templates, so a colour with a backslash can change them or make
  the recolouring fail.
- `RecolorFacts`: what the tag rewrites do, in closed form, what the
  templates insert, and when the recolouring leaves a document unchanged.
- `ScanFacts`: the replace-all scan over a whole document, for every
  pattern. It keeps the text before the leftmost match, puts the match's
  replacement in its place, and continues after the matched text.
- `DocumentRewrites`: the same scan for the path and shape rules, with the
  leftmost match's extent and replacement in closed form.
- `LiteralPhase` and `SeparationFacts`: after the six literal replacements
  with the table's colour `#221FBB`, no black fill spelling remains.
- `Lookup`: `find_svg_file`. The file system is the set of paths that exist.
- `Imaging`: the Pillow images the scripts build. An image is its mode,
  size, background and the pastes applied to it.
- `Generator`:
  - the colour-scheme table, `hex_to_rgba`, `svg_to_png`,
    `add_icon_to_image`, `generate_icon` and its output path;
  - file reads, rendering, colour parsing, directory creation and saving
    are parameters (`Env`);
  - an exception is a `Fault` value.
- `Sorting`: Python's code-point order on names, and an insertion sort.
- `Batch`: `get_all_icon_names` and `generate_all_icons`. The batch run is a
  method with loops.
- `Converter`: `convert_svg.py`, including Python's truncating `int()` and
  the command-line exit status.

## Model

| member | source | states |
|---|---|---|
| `Recolor.MatchAt` | icon_generator.py:112-137 | A match is non-empty and fits in the rest of the text. A literal rule matches exactly where its text occurs. A tag rule matches only where `<path` or `<element` is followed by whitespace. |
| `Recolor.TryPath` | icon_generator.py:128 | A match of `<path\s+([^>]*?)d="` keeps at least one whitespace character before the group. The group ends at the first `d="` reached without crossing `>`. |
| `Recolor.TryShape` | icon_generator.py:134 | A match of `<E\s+(?!.*fill=)([^>]*?)>` has a group that starts after some whitespace where no `fill=` follows on the same line. The group ends at the first `>`. |
| `RecolorFacts.FillOnLineMeaning` | icon_generator.py:134 | The lookahead `.*fill=` succeeds exactly when `fill=` starts somewhere before the next newline. |
| `RecolorFacts.FindDFirst` | icon_generator.py:128 | The lazy `([^>]*?)d="` stops at an occurrence of `d="`, with no `>` and no earlier `d="` before it. |
| `RecolorFacts.FindDNone` | icon_generator.py:128 | The lazy group finds nothing exactly when every later `d="` has a `>` in front of it. |
| `RecolorFacts.FindGtFirst` | icon_generator.py:134 | `([^>]*?)>` ends at the first `>`, and fails exactly when no `>` follows. |
| `RecolorFacts.FindDSkipsSpace` | icon_generator.py:128 | Skipping whitespace before the group does not change where the `d="` search ends. |
| `RecolorFacts.FindGtSkips` | icon_generator.py:134 | Skipping characters other than `>` does not change where the `>` search ends. |
| `RecolorFacts.FillOnLineSkipsSpace` | icon_generator.py:134 | Skipping spaces that are not newlines does not change the lookahead's verdict. |
| `RecolorFacts.TryPathWholeRun` | icon_generator.py:128 | Backtracking over `\s+` gives the same result as taking the whole whitespace run. |
| `RecolorFacts.PathRewrite` | icon_generator.py:127-129 | The path rule matches at `i` exactly when `<path`, whitespace and then a `d="` with no `>` before it occur there. The match runs up to and including the first `d="` after the whole whitespace run. Its group is the attributes between that run and the `d="`. The replacement is the template expanded with the match and the group. |
| `RecolorFacts.PathRewriteOpened` | icon_generator.py:127-129 | Where `<path` occurs, the path rule matches exactly when whitespace follows and a `d="` is found. It gives the span and group described above. |
| `RecolorFacts.TryShapeFinds` | icon_generator.py:134 | If some whitespace length passes the lookahead and reaches a `>`, the shape pattern matches. |
| `RecolorFacts.TryShapeWholeRun` | icon_generator.py:134 | On a whitespace run with no newline, backtracking gives the same result as taking the whole run. |
| `RecolorFacts.ShapeRewrite` | icon_generator.py:132-137 | When the whitespace after `<E` holds no newline, the shape rule for element `E` matches exactly when `<E` and whitespace occur, with no `fill=` on the rest of the line and a later `>`. The match runs to the first `>` and its group is the attributes before it. The replacement is the template expanded with the match and the group. |
| `RecolorFacts.ShapeRewriteOpened` | icon_generator.py:132-137 | The same as `ShapeRewrite`, for a position where `<E` is known to occur. |
| `RecolorFacts.ShapeNewlineInRun` | icon_generator.py:134 | When the whitespace after `<E` has a newline after its first character, the tag is rewritten as soon as a `>` follows, even if it already has a `fill=`. Backtracking to a shorter run moves the lookahead onto the line before the newline. |
| `RecolorFacts.LiteralWithoutOccurrence` | icon_generator.py:112-123 | A literal replacement has no match in a text that does not contain it. |
| `RecolorFacts.TagWithoutOpening` | icon_generator.py:127-137 | A tag rule has no match in a text where its tag never opens. |
| `RecolorFacts.ApplyAllWithoutHits` | icon_generator.py:111-137 | A sequence of substitutions, none of which matches, leaves the text unchanged. |
| `RecolorFacts.RecolorUnchanged` | icon_generator.py:107-139 | `recolor_svg` returns markup unchanged when it has no black fill spelling, no `<path` tag and no basic-shape tag, unless the colour breaks a replacement template. In that case it raises. |
| `Recolor.RecolorSvg` | icon_generator.py:107-139 | `recolor_svg` returns normally exactly when all six replacement templates parse. A colour without a backslash always gives a result. |
| `Recolor.SubFrom` | icon_generator.py:112-137 | A substitution scan that finds no match from `i` on returns the rest of the text unchanged. |
| `ScanFacts.SubFromSplitsAtFirst` | icon_generator.py:112-137 | For every pattern, literal or tag rule: when the leftmost match at or after `i` starts at `f`, the scan returns `s[i..f]`, then that match's replacement, then the scan resumed right after the matched text. The matched text lies inside the document. |
| `DocumentRewrites.PathScan` | icon_generator.py:127-129 | The path rewrite over a document keeps the text before the leftmost match. At the match, `<path` and whitespace occur. The match runs through the first `d="` after the whole whitespace run, and is replaced by the template expanded with the matched text and the attributes before that `d="`. The scan then resumes after the `d="`. |
| `DocumentRewrites.ShapeScan` | icon_generator.py:132-137 | When the whitespace after `<E` holds no newline, a shape rewrite over a document keeps the text before the leftmost match. The match runs through the first `>`, and is replaced by the template expanded with the matched text and the attributes before that `>`. The scan then resumes after the `>`. |
| `Recolor.PlainTemplates` | icon_generator.py:128-135 | For a colour without a backslash, each template parses to its literal head, a reference to group 1, and its literal tail. |
| `RecolorFacts.PlainColorInserts` | icon_generator.py:127-137 | For a colour without a backslash, the path template inserts `<path fill="C" `, the group and `d="`, whatever the match. Each shape template inserts `<E fill="C" `, the group and `>`. |
| `RecolorFacts.WholeMatchColor` | icon_generator.py:128 | A colour holding `\g<0>` puts the whole matched text into the inserted `fill` value. |
| `RecolorFacts.BadEscapeColor` | icon_generator.py:127-129 | A colour that starts with a backslash and a letter with no escape meaning makes `recolor_svg` raise, whatever the markup. |
| `Template.Parse` | icon_generator.py:128-135 | A template that parses refers only to groups the pattern has: group 0 or group 1. |
| `Template.ParseFailsOnEscape` | icon_generator.py:128-135 | Only a backslash can make a template fail to parse. |
| `Template.ParsePlainPrefix` | icon_generator.py:128-135 | Text without backslashes in front of a template is taken literally, and does not change whether the rest parses. |
| `Template.ParsePlain` | icon_generator.py:128-135 | A template without backslashes is literal text. |
| `Template.GroupThenPlain` | icon_generator.py:128 | `\1`, followed by literal text that does not start with a digit, is a reference to group 1 and then that text. |
| `Template.HeadGroupTail` | icon_generator.py:128-135 | Literal head, `\1`, literal tail parses to exactly those three parts. |
| `Template.BadLetterAfter` | icon_generator.py:128-135 | A backslash and an ASCII letter with no escape meaning make the template fail, whatever literal text precedes it. |
| `Template.WholeThenGroup` | icon_generator.py:128 | Literal text, `\g<0>`, literal text, `\1`, literal text parses to the whole match and group 1 in that order. |
| `Template.ExpandPlain` | icon_generator.py:128-135 | Expanding literal text gives the text back, whatever the match. |
| `Template.ExpandHeadGroupTail` | icon_generator.py:128-135 | The head-group-tail template expands to the head, the group's text and the tail. |
| `Template.ExpandWholeThenGroup` | icon_generator.py:128 | The `\g<0>` template expands to the whole match and then the group, between its literal parts. |
| `Template.NamedGroup` | icon_generator.py:128-135 | `\g<0>` and `\g<1>` name the whole match and group 1. |
| `Template.EscapedText` | icon_generator.py:128-135 | `\\` is one backslash. `\#` stays as written, backslash included. |
| `Template.RefusedEscapes` | icon_generator.py:128-135 | `\q`, a reference to the missing group 2, and a trailing backslash all make the template fail. |
| `Recolor.LiteralRules` | icon_generator.py:111-123 | The literal phase is six valid replacements. |
| `Recolor.ShapeRules` | icon_generator.py:132-137 | The shape phase is five valid rewrites, one per element. |
| `LiteralPhase.FirstHit` | icon_generator.py:112 | The position of the first occurrence at or after `i`, or the end of the text. |
| `LiteralPhase.ReplaceSplitsAtFirst` | icon_generator.py:112-123 | `s.replace(p, q)` is `s` exactly when `p` does not occur. Otherwise it is the text before the first occurrence, then `q`, then the replacement applied to the rest after that occurrence. |
| `LiteralPhase.FirstHitOccurs` | icon_generator.py:112 | The search for the first occurrence reaches the end exactly when there is none. |
| `LiteralPhase.ReplacedShift` | icon_generator.py:112 | The replace-all scan from an index gives the same text as the scan of the suffix from the start. |
| `LiteralPhase.CopiedUpTo` | icon_generator.py:112 | `str.replace` copies a stretch that contains no occurrence unchanged. |
| `LiteralPhase.SplitAtFirstHit` | icon_generator.py:112 | The output of `str.replace` starts with the text before the first occurrence, followed by the replacement when there is an occurrence. |
| `LiteralPhase.WindowAtCopied` | icon_generator.py:112-123 | A searched text that does not start at a position of the input does not start at the matching position of the output either. This holds when the replacement is separated from it. |
| `LiteralPhase.LiteralClears` | icon_generator.py:112-123 | After `str.replace(p, q)`, the text `p` no longer occurs, and neither does any text already absent, when `q` is separated from it. |
| `LiteralPhase.ApplyAllConcat` | icon_generator.py:111-137 | Applying two lists of rules in a row is applying their concatenation. |
| `LiteralPhase.LiteralsKeepAbsent` | icon_generator.py:112-123 | Later literal replacements whose replacements are separated from a text do not re-create it. |
| `LiteralPhase.LiteralRuleAt` | icon_generator.py:112-123 | The `j`-th literal rule replaces the `j`-th black spelling, with a text separated from it. |
| `LiteralPhase.LaterStepsSeparated` | icon_generator.py:112-123 | None of the replacements after step `j` can re-create the `j`-th black spelling. |
| `LiteralPhase.LiteralStepClears` | icon_generator.py:112-123 | The `j`-th black spelling is absent after the literal phase. |
| `LiteralPhase.LiteralPhaseClears` | icon_generator.py:111-123 | For a colour whose fill attribute and style are separated from the black spellings, none of `fill="#000000"`, `fill="#000"`, `fill="black"`, `fill="currentColor"`, `style="fill:#000000"` or `style="fill:#000"` remains after the literal phase. |
| `LiteralPhase.TableColorClearsBlack` | icon_generator.py:26 | The icon colour `#221FBB` of the table meets that separation. |
| `SeparationFacts.SeparatedFillHex6` | icon_generator.py:112 | `fill="#221FBB"` and `style="fill:#221FBB"` cannot form `fill="#000000"` with neighbouring text. |
| `SeparationFacts.SeparatedFillHex3` | icon_generator.py:113 | The same for `fill="#000"`. |
| `SeparationFacts.SeparatedFillBlack` | icon_generator.py:114 | The same for `fill="black"`. |
| `SeparationFacts.SeparatedFillCurrentColor` | icon_generator.py:115 | The same for `fill="currentColor"`. |
| `SeparationFacts.SeparatedStyleHex6` | icon_generator.py:118-120 | The same for `style="fill:#000000"`. |
| `SeparationFacts.SeparatedStyleHex3` | icon_generator.py:121-123 | The same for `style="fill:#000"`. |
| `Lookup.FirstExisting` | icon_generator.py:101-105 | The index of the first candidate that exists, with none before it. `None` exactly when none exists. |
| `Lookup.FindSvgFile` | icon_generator.py:78-105 | A missing icon directory or outlined directory gives `None`. A file found exists and is one of the four probed candidates. |
| `Lookup.FindSvgFilePrefersLargest` | icon_generator.py:78-105 | A file is found exactly when the icon directory, its outlined directory and one of the four sizes exist. The file found is the largest size present. |
| `Lookup.FindSvgFileLocal` | icon_generator.py:78-105 | The lookup depends only on the icon's directory, its outlined directory and its four candidate files. |
| `Imaging.NewImage` | convert_svg.py:28 | `Image.new` fails exactly for a negative size. Otherwise it gives a blank image of that mode, size and fill. |
| `Imaging.ToRgba` | icon_generator.py:182-184 | Conversion yields RGBA with the same size and content, and leaves an RGBA picture as it is. |
| `Imaging.Paste` | icon_generator.py:191 | A paste adds one layer at the given offset and changes nothing else. |
| `Generator.ConfigTable` | icon_generator.py:24-45 | There are exactly four schemes. Each has icon colour `#221FBB` and output directory `icons/<scheme>`. Only `blue-alpha` has no background. |
| `Generator.HexToRgba` | icon_generator.py:53-58 | `None` stays `None`. A colour parses to its RGB with the alpha appended. A parse error becomes a fault. |
| `Generator.SvgToPng` | icon_generator.py:141-165 | An unreadable file or a colour that breaks the replacement templates gives no picture. A picture is the rendering of the recoloured markup of a file that was read. |
| `Generator.AddIconToImage` | icon_generator.py:167-193 | The canvas keeps its mode, size and background. It is returned as it is, or with exactly one more layer: an RGBA picture at the icon offset both ways. |
| `Generator.AddIconPlacement` | icon_generator.py:167-193 | The canvas is returned untouched exactly when one of these holds: no SVG is found, it cannot be read, the colour breaks a template, or the markup does not render. Otherwise the icon, converted to RGBA, is pasted at the icon offset. That offset leaves equal margins around the 250×250 icon on the 500×500 canvas. |
| `Generator.Background` | icon_generator.py:200-202 | No background, or an empty one, gives transparent. Otherwise the colour is parsed and made opaque, and a parse error is a fault. The alpha is always 0 or 255. |
| `Generator.PosixJoin` | icon_generator.py:214-216 | The joined path ends with the file part. An absolute file part replaces the directory. Otherwise the directory comes first, followed by one `/` when it is non-empty and lacks one. |
| `Generator.GenerateIcon` | icon_generator.py:195-219 | An unknown scheme raises. A generated icon was saved, and is a 500×500 RGBA image. |
| `Generator.GeneratedBackground` | icon_generator.py:195-208 | A generated icon is a 500×500 RGBA image. It is transparent for a scheme without a background, and the opaque parsed colour otherwise. It has no icon layer when no SVG is found. |
| `Generator.OutputPathOf` | icon_generator.py:214-216 | For an icon name that is not an absolute path, the output path is `icons/<scheme>/<icon>-<scheme>.png`. |
| `Generator.GenerateIconOutcome` | icon_generator.py:195-219 | `generate_icon` succeeds exactly when the scheme exists, the canvas builds, the directory is made and the save succeeds. It returns the path it saved to. The background alpha is 0 or 255. |
| `Generator.OutputPathsDistinct` | icon_generator.py:24-45 | Distinct (icon, scheme) pairs are saved to distinct paths. |
| `Generator.SchemeFilesDistinct` | icon_generator.py:214-216 | Distinct (icon, scheme) pairs have distinct `icons/<scheme>/<icon>-<scheme>.png` names. |
| `Generator.NamesDiffer` | icon_generator.py:24-45 | Any two scheme names differ at some position within both. |
| `Sorting.LexLeMeaning` | icon_generator.py:230 | The recursive comparison is the lexicographic order of code points: `a <= b` exactly when `a` is a prefix of `b` or the first difference favours `a`. |
| `Sorting.LexLeTotal` | icon_generator.py:230 | The order `list.sort` uses on names is total. |
| `Sorting.LexLeAntisymmetric` | icon_generator.py:230 | That order is antisymmetric. |
| `Sorting.LexLeTransitive` | icon_generator.py:230 | That order is transitive. |
| `Sorting.Insert` | icon_generator.py:230 | Inserting into a sorted list keeps it sorted and adds exactly that name. |
| `Sorting.Sort` | icon_generator.py:230 | The result is sorted and a permutation of the input. |
| `Sorting.SortedUnique` | icon_generator.py:230 | Two sorted permutations of the same names are equal. |
| `Sorting.SortIgnoresOrder` | icon_generator.py:230 | Sorting gives the same list whatever the input order. |
| `Batch.DirNames` | icon_generator.py:229 | The names kept are exactly those of directory entries. |
| `Batch.GetAllIconNames` | icon_generator.py:221-232 | A missing base directory gives `[]`. Otherwise the result is the directory names, each as often as listed, in sorted order. |
| `Batch.IconNamesIgnoreListingOrder` | icon_generator.py:221-232 | The icon list does not depend on the order in which the directory is listed. |
| `Batch.ScheduleIndex` | icon_generator.py:251-256 | Position `a·n + b` of the run is icon `b` in scheme `a`. Every pair is tried once, schemes outermost. |
| `Batch.FailuresAccount` | icon_generator.py:255-266 | Successes plus failures equal the pairs tried. Each recorded failure is a pair that was tried, with the fault its generation raised. |
| `Batch.RecordKeepsConsistent` | icon_generator.py:255-266 | Recording one attempt keeps the counters in step with the pairs tried. |
| `Batch.GenerateOne` | icon_generator.py:255-266 | One inner-loop step appends the pair and keeps the counters consistent. |
| `Batch.RunScheme` | icon_generator.py:254-270 | The inner loop tries every icon of one scheme in order. |
| `Batch.RunSchemes` | icon_generator.py:251-270 | The outer loop runs the schemes in table order. Every pair it tries is recorded, and the count and the failure list match the outcomes of those pairs. |
| `Batch.GenerateAllIcons` | icon_generator.py:234-278 | With no icons the run does nothing. Otherwise it tries every (icon, scheme) pair once, schemes in table order and icons in sorted order. The generated count plus the failures is 4 × the icon count. The failures are exactly the pairs whose generation raised, in order. |
| `Batch.WritableOutputsNeverFail` | icon_generator.py:251-266 | When colours parse, directories can be made and saves succeed, no pair fails. A missing SVG still counts as generated. |
| `Converter.TruncDiv` | convert_svg.py:15 | `int()` of a quotient rounds toward zero on both signs. |
| `Converter.IconHeight` | convert_svg.py:13-15 | The icon height is `47/53` of the width, rounded toward zero for either sign. |
| `Converter.IconHeightRatio` | convert_svg.py:13-15 | For a non-negative width the height lies between 0 and the width. |
| `Converter.CenterOffset` | convert_svg.py:34-35 | The `//` centring offset leaves equal margins, or one extra pixel after the picture. |
| `Converter.CenterBalanced` | convert_svg.py:34-35 | A size that fits leaves a non-negative margin on each side. |
| `Converter.IconFits` | convert_svg.py:34-38 | An icon no wider than the container lies inside it both ways. |
| `Converter.DefaultPlacement` | convert_svg.py:9-35 | With the defaults, the icon is 350×310 at offset (75, 95). |
| `Converter.ConvertSvgToCenteredPng` | convert_svg.py:9-48 | The function returns `True` exactly when it writes an image. That image is a transparent RGBA square of the container size, holding the rendered icon as its one layer, and it was saved. |
| `Converter.ConversionOutcome` | convert_svg.py:9-48 | The conversion returns `True` exactly when rendering, canvas creation and saving all succeed. It then writes the transparent canvas with the icon centred. On `False` nothing is written. |
| `Converter.CliExit` | convert_svg.py:51-60 | The exit status is 0 or 1, and 1 for a wrong argument count. |
| `Converter.CliExitStatus` | convert_svg.py:51-60 | The exit status is 0 or 1. It is 0 exactly when there are two arguments and the default conversion succeeds. |

## Left out

- **Rendering and image libraries.**
  - cairosvg rendering and Pillow decoding are function parameters.
  - A rendered picture is an opaque `Raster` value.
  - Pastes are recorded as layers rather than composited pixel by pixel.
- **Colour parsing.** `ImageColor.getrgb` is a parameter. Its grammar of colour names and forms is not modelled.
- **File system.**
  - It is a set of existing paths plus oracles for reading text, making directories and saving.
  - `Path.exists` and `is_dir` are not told apart beyond `Entry.isDir`.
  - The temporary file `/tmp/temp_icon.png` of the converter is folded into its render parameter.
- **Printing.** Progress messages, warnings and the final failure listing are not modelled. The run's output is the `Report`.
- **Error text.** The `str(e)` stored with each failure is replaced by a `Fault` value naming the step that raised.
- **Other exceptions.** Exceptions raised by Pillow's `convert` or `paste`, or by memory exhaustion, are not modelled.
- **Regular expressions in general.** Only the three patterns the script uses are modelled: the path pattern and the shape pattern for each of five elements.
- **Replacement templates.**
  - They follow the rules of Python 3.12's `re` module. Earlier versions differ in rare cases. For example, Python 3.11 accepts a group name made of non-ASCII decimal digits with a deprecation warning. Python 3.12 raises `re.error` for it, and so does the model (`Template.ParseNamed` fails).
  - An `IndexError` for an unknown group name and a `re.error` are both modelled as the same failure, because `svg_to_png` catches both.
- **Empty search strings.** `str.replace` with an empty search string is not modelled; all six literals are non-empty.
- `create_circle_background` and `hex_to_rgb` (icon_generator.py:47-76) are not modelled, because nothing in the scripts calls them.
- `main.py` is not part of this model.
- `Converter.IconHeight` computes `int(w * (47 / 53))` exactly as `w * 47` truncated toward zero by 53. The float product may round differently at some widths.
- `RecolorFacts.RecolorUnchanged` covers only markup with none of the patterns present. For other markup, the scan over a whole document is stated one leftmost match at a time. `ScanFacts.SubFromSplitsAtFirst` does this for every pattern, and `DocumentRewrites.PathScan` and `DocumentRewrites.ShapeScan` do it for the tag rules. No lemma chains these steps into one closed form for the whole output of `recolor_svg`.
- `LiteralPhase.LiteralPhaseClears`: no black spelling remains after the six literal replacements. This is not proved for the final output after the tag rewrites.
- `RecolorFacts.ShapeRewrite` requires that the whitespace run after the tag name contains no newline. The newline case is covered only in the matching direction, by `ShapeNewlineInRun`. That lemma needs the newline to come after the first whitespace character. A run that starts with a newline, as in `<rect\n fill="r">`, is not covered by any lemma. That tag is not rewritten, because every backtracked position has `fill=` on its line.
- `RecolorFacts.PlainColorInserts` states what a template inserts separately from where a match starts and ends. `DocumentRewrites.PathScan` and `DocumentRewrites.ShapeScan` state the replacement as the template expanded at the match. For a colour without a backslash, `PlainColorInserts` gives that expansion as the tag head, the group and the tail. The two are not restated as one lemma.
- `Generator.OutputPathOf` and `Generator.OutputPathsDistinct` assume icon names that do not start with `/`. `os.path.join` would discard the scheme directory for such a name, and directory listings never produce one.
