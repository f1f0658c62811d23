# Instagram reel renderer: a verified model of its logic

`make_ig_reel.py` turns a source video into a 1080x1920 reel. It overlays two
text banners, the title for the first half and the call to action for the
second half. It also replaces the soundtrack with a background track that is
looped to the length of the video. Most of the script calls into moviepy,
Pillow and numpy. This project models the four pieces of logic the script
itself owns, one Dafny module each:

- `AudioLoop` (`audio_loop.dfy`): `loop_audio_to_duration`. A track that is
  long enough is cut to the target. A shorter one is repeated
  `ceil(d / n)` times by the accumulation loop and then cut. The track is a
  sequence of samples and the durations are sample counts. A zero-length
  track with a positive target divides by zero in the source, so the model
  returns the `DivisionByZero` outcome for it.
- `FontChain` (`font_chain.dfy`): `find_font` and `load_font`. These are
  ordered-try loops that return early. The user's path is tried only when it
  is given and names a file. Then the five system names are tried in order.
  The built-in bitmap font ends the chain, so the chain never fails. The
  host is a value: the set of paths that are files, and a map from each
  name the TrueType loader can open to the path of the font it opens.
- `Banner` (`banner.dfy`): `draw_text_strip`. The buffer is always
  `box_width x box_height` RGBA. The canvas starts fully transparent. A
  rounded panel (radius 20) whose rectangle spans the whole buffer is drawn
  over it, so the corners outside the radius stay transparent. The text
  origin is `((box_width - text_w) // 2, (box_height - text_h) // 2)`. Dafny's `/` by the positive divisor 2 rounds
  down, exactly like Python's `//`, so an overflowing text gets a negative
  origin. A measuring function given as a parameter returns the text's
  bounding box. The model assumes that the renderer can measure every font
  the chain returns, the built-in bitmap font included.
- `Timeline` (`timeline.dfy`): the banner windows set up in `main`. The
  title is shown on `[0, d/2)` and the call to action on `[d/2, d/2 + d/2)`.
  Moving a layer's start keeps its duration. Time is an exact `real`.

## Model

| member | source | states |
|---|---|---|
| `AudioLoop.CeilDiv` | make_ig_reel.py:67 | the loop count covers the target (`loops * n >= d`) and one copy fewer would not (`(loops - 1) * n < d`); needs `n > 0` |
| `AudioLoop.Repeat` | make_ig_reel.py:68-71 | `k` copies of the track appended end to end hold exactly `k * n` samples |
| `AudioLoop.RepeatAt` | make_ig_reel.py:68-71 | sample `i` of `k` concatenated copies is `track[i % n]` |
| `AudioLoop.CopiesBeyondNeedAreTrimmed` | make_ig_reel.py:67-72 | any two copy counts that cover `d` give the same first `d` samples, so extra copies leave no trace after the cut |
| `AudioLoop.LoopToDuration` | make_ig_reel.py:63-72 | a track with `n >= d` gives exactly its first `d` samples; otherwise the loop accumulates `Repeat(track, c)` (length `c * n`) up to `ceil(d / n)` copies, and the result has length `d` with `out[i] == track[i % n]`; a zero-length track with `d > 0` is the division by zero |
| `FontChain.FindFont` | make_ig_reel.py:17-24 | returns the path of the first name in `preferred` (by default the five system names) that loads, and None exactly when no name loads |
| `FontChain.LoadFont` | make_ig_reel.py:26-41 | the user's font when a non-empty path names a file that loads; otherwise the first system name (in the fixed order of five) that loads; otherwise the built-in bitmap font; never fails |
| `FontChain.FirstLoadableUnique` | make_ig_reel.py:19-24 | at most one index is the first loadable name, so the chain's choice is determined by the host |
| `FontChain.LoadFontAgreesWithFindFont` | make_ig_reel.py:17-41 | without a usable user font, `load_font` picks the system font whose path `find_font` reports for the same list, or the bitmap font when `find_font` reports None |
| `Banner.CenterOffset` | make_ig_reel.py:58-59 | the space after the text equals the space before it or is one more; the origin is negative exactly when the text overflows; fitting text lies inside the panel |
| `Banner.DrawTextStrip` | make_ig_reel.py:43-61 | the buffer is `box_height x box_width x 4` whatever the text; the canvas starts transparent and the panel's rounded rectangle (radius 20, background colour) spans the whole buffer; the font is the fallback chain's choice; the measured text box is centred horizontally and vertically |
| `Timeline.WithDuration` | make_ig_reel.py:113-114 | an image layer given a duration `D` starts at 0 and is shown exactly at the times in `[0, D)` |
| `Timeline.SetStart` | make_ig_reel.py:118 | a layer moved to start at `s` keeps its duration `D` and is shown exactly at the times in `[s, s + D)` |
| `Timeline.TitleLayer` | make_ig_reel.py:113-115 | the title layer starts at 0, lasts `d/2` and is shown exactly on `[0, d/2)` |
| `Timeline.CtaLayer` | make_ig_reel.py:116-119 | the call-to-action layer lasts `d/2` and is moved to start at `d/2`; it keeps its duration, so it is shown exactly on `[d/2, d)` |
| `Timeline.BannersSplitAtMidpoint` | make_ig_reel.py:113-119 | both windows last `d/2`; the second starts where the first ends; no time shows both; together they show exactly `[0, d)`, the title on `[0, d/2)` and the call to action on `[d/2, d)` |

## Left out

- Video decoding, resizing, cropping, compositing and encoding (`VideoFileClip`, `resize`, `crop`, `CompositeVideoClip`, `write_videofile` with its codecs, bitrate, preset and four encoder threads). These are calls into moviepy and ffmpeg.
- Pixel rasterisation: the rounded rectangle, the glyphs and the `np.array` conversion. The banner records what is drawn and where, not the pixels.
- Banner placement on the frame (`("center", top_y)` and `("center", bottom_y)`). moviepy resolves these positions.
- Where the glyph ink lands relative to the drawing origin (the bounding box's own left and top offsets) is the renderer's business. The model centres the box's width and height, as the source does.
- Argument parsing and its defaults.
- File system and TrueType loading. The host value stands for them. Loading is modelled as depending only on the name, not on the size.
- Float durations. Audio is counted in whole samples, so `subclip(0, duration)` cuts at a sample boundary. The ratio `duration / audio_clip.duration` and its ceiling are exact integer arithmetic. Float rounding of that ratio is not modelled.
- `concatenated.append(c)` is assumed to append the clip's samples at the end, as its name says. What the audio library's clip objects actually do on that call is not part of this model.
- The text measurement is assumed to work for every font, the built-in bitmap font included. The `measure` parameter is a total function.
- The transparent corners of the panel outside its radius are not modelled pixel by pixel. The strip records the transparent canvas and the panel's rectangle and radius.
- Negative banner sizes, which the image library rejects, are excluded by the `nat` type of the box width and height.
- The `padding` parameter of `draw_text_strip` and the local `font_path` of `load_font`, which the source never uses.
