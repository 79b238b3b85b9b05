# webtoon4cut: text wrapping, prompt limits, error messages and panel layout

The application turns an uploaded photo and a short story into a four-panel
comic. Hosted models describe the photo, split the story into panels, write
image prompts and draw the panels. Speech bubbles are then drawn on the
panels, and the panels are composited onto one page. Nearly all of this is
calls to external services and UI code. This project models the parts that
compute something by themselves, and proves what they do:

- **Bubble text wrapping** (`wrap_text`, module `BubbleText`). A greedy
  word wrapper over Python's `text.split(' ')`, with a fixed-width chunking
  fallback. The model proves that the fallback can never fire and that the
  result is never empty. It proves that a line of two or more words fits the
  width. It also proves that joining the lines with spaces gives the text
  back, except for an empty first line that appears when the first word is
  too long.
- **Prompt length limits** (module `PromptTrim`). The character description
  is shortened to its first 20 space-separated tokens (line 818). Inside
  `generate_image` it is capped at 150 characters plus `"..."`, and cut again
  when the templated prompt is longer than 3800 characters.
- **Error messages** (`handle_openai_error`, module `OpenAIErrors`). The
  error text is searched for the substrings 400, 401, 429 and 500, in that
  order, and the first one found picks the message.
- **Page layout** (`create_layout_image`, module `Layout`). The caller's
  image list is padded in place with blank 1024×1024 images up to four.
  Then each panel gets a rectangle on the canvas according to layout A, B, C
  or D.
- **Panel list normalisation** (module `Panels`). Numbered placeholder panels
  are appended to the story analysis result, and the list is cut to the panel
  count.

`PyStr` holds the Python string operations these rely on: `split(' ')`,
`' '.join`, `in` on strings, and the decimal text of an integer.

Where the code changes state, the model does too. `wrap_text`'s loop is the
method `WrapText`. The image list and the panel list are objects of the classes
`ImageList` and `PanelList`. `CreateLayoutImage` and `NormalisePanels` pad them
in place, as the application pads the caller's Python list. Each method is
proved equal to a specification function (`WrapLines`, `Arrange`,
`Normalised`), and the lemmas state the properties of those functions.

## Model

| member | source | states |
|---|---|---|
| `PyStr.Split` | webtoon_final_v4.py:334 | `split(' ')` always yields at least one token, and no token contains a space |
| `PyStr.JoinSplit` | webtoon_final_v4.py:334 | joining the tokens of `split(' ')` with single spaces gives back the original text, empty tokens included |
| `PyStr.SplitJoin` | webtoon_final_v4.py:818 | splitting the join of one or more space-free tokens gives back exactly those tokens (the other half of the inverse) |
| `PyStr.JoinTakePrefix` | webtoon_final_v4.py:818 | the join of the first k tokens is a prefix of the join of all of them |
| `PyStr.Contains` | webtoon_final_v4.py:65 | the executable substring search is true exactly when the pattern occurs at some position of the text |
| `PyStr.NatToString` | webtoon_final_v4.py:760 | the decimal text of a number is non-empty, all digits, and has no leading zero unless the number is 0 |
| `PyStr.NatToStringValue` | webtoon_final_v4.py:760 | reading the decimal text back gives the number |
| `BubbleText.RunInvariant` | webtoon_final_v4.py:339-346 | after any non-empty run of words, the wrap loop's state satisfies the invariant. The current line is a non-empty suffix of the words. `current_length` is the current line's length, or one more before the first break. Closed lines with a space fit the width. The lines join back to the words |
| `BubbleText.GreedySingleLine` | webtoon_final_v4.py:339-349 | the loop produces at least one line. It produces exactly one line if and only if the text is shorter than the width, and that line is then the whole text |
| `BubbleText.WrapFallbackUnreachable` | webtoon_final_v4.py:352-355 | the guard `len(lines) == 1 and len(text) > width_chars` never holds, so `wrap_text` returns the greedy lines |
| `BubbleText.WrapNonEmpty` | webtoon_final_v4.py:357-360 | `wrap_text` returns a non-empty list, which `max(...)` at line 360 needs. It returns a single line exactly when the text is shorter than the width |
| `BubbleText.BubbleLines` | webtoon_final_v4.py:359-360 | with the default width of 15, the list `max(...)` runs over is never empty, and the text takes more than one line exactly when it has 15 or more characters |
| `BubbleText.WrapLineWidth` | webtoon_final_v4.py:339-346 | every output line containing a space (two or more words) is at most the width; only a single over-long word can be wider |
| `BubbleText.WrapJoinsBack` | webtoon_final_v4.py:334-349 | when the first word fits (`len + 1 <= width`), joining the lines with spaces reproduces the text. Otherwise the first line is empty and joining the remaining lines reproduces the text |
| `BubbleText.WrapText` | webtoon_final_v4.py:333-357 | the loop computes `WrapLines`, the whole function with its fallback; the result is non-empty and has one line exactly when the text is shorter than the width |
| `PromptTrim.Take` | webtoon_final_v4.py:270 | Python's `s[:k]` is a prefix of `s` of length `min(k, len(s))` |
| `PromptTrim.CapDescription` | webtoon_final_v4.py:261-262 | the capped description has at most 153 characters. A description of 150 characters or fewer is unchanged; a longer one becomes its first 150 characters followed by `"..."` |
| `PromptTrim.EnhancedPrompt` | webtoon_final_v4.py:268 | the templated prompt starts with the scene prompt and is 41 characters longer than prompt, description and style together |
| `PromptTrim.TrimPrompt` | webtoon_final_v4.py:260-273 | the prompt sent is the template over the description kept. The description is cut a second time only when the first prompt exceeds 3800 characters. It then keeps a prefix of the capped description followed by `"..."`. When `len(desc) - excess - 100 >= 50` the rebuilt prompt is exactly 3703 characters, within the limit. Otherwise exactly min(50, len(desc)) characters are kept, and the prompt is sent whatever its length |
| `PromptTrim.TrimLengthensShortDescription` | webtoon_final_v4.py:270-273 | when the capped description has at most 50 characters, a rebuild keeps it whole and adds `"..."`, so the rebuilt prompt is 3 characters longer than the one that was over the limit |
| `PromptTrim.ShortDescriptionPrefix` | webtoon_final_v4.py:818 | the shortened description is a prefix of the original. Its tokens are exactly the first min(20, n) tokens of the original, so there are at most 20. A description of 20 tokens or fewer is unchanged |
| `OpenAIErrors.Classify` | webtoon_final_v4.py:63-73 | the kind is chosen by the first of "400", "401", "429", "500" that occurs in the error text; each kind holds exactly when its code occurs and no earlier code does |
| `OpenAIErrors.HandleError` | webtoon_final_v4.py:63-74 | each code kind gets its fixed message; with no code found, the message is the generic prefix followed by the error text verbatim |
| `OpenAIErrors.KindOfMessageInverse` | webtoon_final_v4.py:63-74 | the kind of error can be read back from the message returned |
| `OpenAIErrors.HandleErrorSeparatesKinds` | webtoon_final_v4.py:63-74 | error texts of different kinds never get the same message, and two texts without a code get the same message only if they are equal |
| `Layout.Image.Blank` | webtoon_final_v4.py:415 | a blank padding image is 1024×1024 |
| `Layout.GridTiles` | webtoon_final_v4.py:419-428 | layout A: images 0-3 in order, each as a 1024×1024 tile. The tiles lie on the canvas, do not overlap, and cover every pixel |
| `Layout.StripStacks` | webtoon_final_v4.py:430-447 | layout B: panel i is 1024×768 at y = i·788 on a 1024×3132 canvas. The panels do not overlap and the last one ends exactly at 3132. A pixel is covered exactly when it is outside the 20-pixel gaps |
| `Layout.TopAndTwoTiles` | webtoon_final_v4.py:449-462 | layout C: images 0-2 only, as a 2048×1024 top tile and two 1024×1024 tiles below, exactly covering the 2048×2048 canvas |
| `Layout.TallAndTwoTiles` | webtoon_final_v4.py:464-477 | layout D: images 0-2 only, as a 1024×2048 left tile and two 1024×1024 tiles on the right, exactly covering the 2048×2048 canvas |
| `Layout.Arrange` | webtoon_final_v4.py:419-490 | for every layout name the rectangles lie on the canvas and are disjoint. A is `Grid()`. B is `Strip()`: the 1024×3132 canvas with panel i at 1024×768 at y = i·788. C is `TopAndTwo()` and D is `TallAndTwo()`. Every name other than B tiles a 2048×2048 canvas exactly. C and D place images 0-2 and A places 0-3. Any unknown name gets the same grid as A |
| `Layout.PasteGrid` | webtoon_final_v4.py:425-428 | the grid pasting loop produces the placements of layout A |
| `Layout.CreateLayoutImage` | webtoon_final_v4.py:410-490 | the caller's list is padded in place to max(4, its length). Existing entries keep their positions, each appended entry is a fresh 1024×1024 blank image, and a list of 4 or more is left unchanged. The placements are those of `Arrange`, and every source index is in the padded list |
| `Panels.Dummies` | webtoon_final_v4.py:758-762 | the placeholders appended after `done` panels up to `total` number `total - done`. The k-th one is the placeholder for position `done + k + 1` |
| `Panels.Normalised` | webtoon_final_v4.py:758-765 | the result has exactly `num_panels` entries. Entry i is the i-th panel returned when there is one, otherwise the placeholder for position i+1 |
| `Panels.DummyDescriptionNumbers` | webtoon_final_v4.py:760-761 | a placeholder's description is "패널 " followed by decimal digits that read back as its 1-based position, and its dialogue is "안녕하세요!" |
| `Panels.NormalisedIdempotent` | webtoon_final_v4.py:765 | normalising an already normalised list changes nothing |
| `Panels.NormalisePanels` | webtoon_final_v4.py:758-765 | the loop appends exactly the missing placeholders to the caller's list, in place and without cutting it. The returned list is `Normalised` of the original |

## Left out

- The Streamlit UI is not modelled: sidebar, tabs, forms, buttons, session state, dialogue editing and downloads. None of it computes anything that can be stated.
- The calls to the hosted models are not modelled: photo analysis, story analysis, prompt writing, image generation and its retry with a simpler prompt. Their results come from an external service. The trimming block of `generate_image` is modelled; the call that follows it is not.
- Font download and loading, fetching images by URL, frame image files and directory creation are not modelled. They are file and network I/O.
- JSON parsing of model replies and base64 encoding of the photo are not modelled. They are library wrappers.
- Pixels are not modelled. That covers resizing, pasting and drawing, and the placement and shape of speech bubbles, which depend on float font metrics (`draw.textlength`) and float arithmetic for the cloud shape. An image is only its size, and a composite is a canvas size plus one rectangle per pasted image.
- Progress-bar fractions are not modelled; they are floats with no behaviour worth stating.
- The vertical fallback layout used when compositing raises an exception is not modelled. It depends on PIL raising.
- `BubbleText.Chunks`: for a zero width, Python's `range` raises `ValueError`, but the model returns no lines. The branch that calls it can never be taken (`WrapFallbackUnreachable`), so the difference has no effect.
- `Panels.Panel` keeps only the description and the dialogue. Other keys the model may return are dropped, and a missing "dialogue" key is the empty dialogue, as `panel.get('dialogue', '')` reads it.
