# ColorAimbot, modelled in Dafny

`resources/AIMBOT.py` defines one class, `ColorAimbot`. Every loop iteration it does three things:

- It takes the latest screen frame from a `dxcam` capture session.
- It cuts a 100×100 region of interest (ROI) out of the middle of the frame and thresholds that region in HSV against two colour bands. It dilates each band mask, ORs the two together, takes the external contours, and picks the largest one whose area is strictly above 5.
- It sends the top-centre of that contour's bounding box, measured from the ROI centre, to a serial device as `MOVE x,y\n`.

Setup tries the serial ports COM2 to COM10 in turn and keeps the first that opens, then creates and starts the camera. `run` refuses to start unless both devices are present. It loops until the operator interrupts it, then `cleanup` stops the camera and closes the port.

The project has seven modules:

- `Options` holds the `Option` type.
- `Frames` (frames.dfy) models numpy-style rectangular images and Python slicing. It also holds the ROI corner and the crop.
- `Segmentation` (segmentation.dfy) models the colour bands, `cv2.inRange`, `cv2.bitwise_or` and the combined mask.
- `Targeting` (targeting.dfy) selects the target. It picks the first candidate of maximal area, applies the strict area gate and computes the top-centre offset.
- `Command` (command.dfy) covers the `MOVE x,y\n` wire format: Python's `str` of an int, the ASCII bytes, and a parser proved to be the exact inverse of the encoder, in both directions.
- `Pipeline` (pipeline.dfy) is `process_frame`.
- `Aimbot` (aimbot.dfy) is the `ColorAimbot` class. Its fields are `serialConn`, `camera` and `running`.

The devices themselves are outside the model. The class keeps a log, `calls`, of the calls it makes into them: open attempts, camera start and stop, writes with their exact bytes, and close. The two calls `dxcam.create()` and `get_latest_frame()` are not logged; their results are parameters. What a device answers is a parameter of the method that asks:

- whether a port opens;
- what `dxcam.create()` returns;
- the frame and the write outcome of each iteration;
- whether `camera.stop()` raises.

Each method's contract states the new fields and the exact suffix it appends to `calls`. Each suffix is given by a specification function. Lemmas then prove what the source promises about those functions:

- the scan order;
- one command per targeted frame;
- commands that stay within the ROI;
- the stop-before-close order in cleanup.

In three places the code does not do what its intent suggests; the model follows the code:

- The area gate is strict, not inclusive: an area of exactly 5 is rejected (`GateIsStrict`).
- The ROI corner is `width // 2 - size // 2`, not `(width - size) // 2`. The two agree for an even size, and for an odd size with an odd frame side; for an odd size and an even side the corner is one pixel further right or down (`EvenRoiIsCentred`, `OddRoiIsOffCentre`). With the fixed size of 100, the ROI is centred for frames at least 100×100.
- `cleanup` does not guard its two releases independently. If `camera.stop()` raises, the serial port is not closed and the exception leaves `cleanup` (`CleanupEvents`, `ColorAimbot.Cleanup`).

## Model

| member | source | states |
|---|---|---|
| Frames.Slice | resources/AIMBOT.py:66 | Python slicing: the length after negative bounds are wrapped and clamped, each element taken from the clamped start, and the plain subsequence when the bounds are in range |
| Frames.RoiCorner | resources/AIMBOT.py:60-64 | the ROI's corner lies inside the frame on each axis where the ROI fits |
| Frames.CenteredSliceLength | resources/AIMBOT.py:61-66 | slicing `size` elements from `n // 2 - size // 2` gives at most `size` elements whatever the side `n`, and at least one when `n` and `size` are positive |
| Frames.CropColumns | resources/AIMBOT.py:66 | every row of the crop is the Python slice of the frame row, all of the same length |
| Frames.CropRoi | resources/AIMBOT.py:66 | the crop is never larger than the frame nor than size×size, for any frame; it is empty only when the frame has no rows or no columns |
| Frames.RoiIsExact | resources/AIMBOT.py:60-66 | when the ROI fits, the crop is exactly size×size and pixel (i, j) of the crop is pixel (top+i, left+j) of the frame |
| Frames.EvenRoiIsCentred | resources/AIMBOT.py:61-64 | for an even size the corner equals ((W−S)//2, (H−S)//2), so the ROI is centred |
| Frames.OddRoiIsOffCentre | resources/AIMBOT.py:61-64 | for an odd size the corner is (W−S)//2 plus one when W is even and plus zero when W is odd, on each axis (100 and 3 give 49, where (100−3)//2 is 48) |
| Segmentation.MapImage | resources/AIMBOT.py:68 | the per-pixel colour conversion keeps the shape and converts every pixel |
| Segmentation.InRange | resources/AIMBOT.py:70-71 | a mask pixel is set exactly when the HSV pixel lies in the band on all three channels |
| Segmentation.BitwiseOr | resources/AIMBOT.py:77 | a pixel of the OR is set exactly when it is set in either mask |
| Segmentation.CombinedMask | resources/AIMBOT.py:70-77 | a pixel is set exactly when it is set in the dilated band-1 mask or the dilated band-2 mask |
| Segmentation.UndilatedMaskIsBandUnion | resources/AIMBOT.py:70-77 | with the identity for dilation, the combined mask is exactly the union of the two bands |
| Segmentation.BandPixelsSurviveDilation | resources/AIMBOT.py:73-77 | a dilation that only grows a mask keeps every in-band pixel set in the combined mask |
| Segmentation.BandsAreDisjoint | resources/AIMBOT.py:13-17 | no HSV value lies in both configured bands |
| Targeting.LargestIndex | resources/AIMBOT.py:84 | the index of a candidate no smaller than any other, with every earlier candidate strictly smaller (Python's `max` keeps the first maximum) |
| Targeting.SelectTarget | resources/AIMBOT.py:83-90 | no contours means no target; a target exists exactly when some candidate's area is above 5; it is the top-centre offset of the first largest candidate, which itself passes the gate |
| Targeting.OffsetWithinRoi | resources/AIMBOT.py:86-90 | a box inside the ROI gives an offset within [−(S//2), S−1−S//2] on both axes |
| Targeting.LargerCandidateWins | resources/AIMBOT.py:84-85 | the strictly larger of two candidates is chosen in either order |
| Targeting.FirstWinsOnTies | resources/AIMBOT.py:84 | of two equally large candidates, the first one listed is chosen |
| Targeting.GateIsStrict | resources/AIMBOT.py:85 | candidates of areas 4 and 5 give no target; a candidate of area 5.5 gives one |
| Targeting.CentredSquareExample | resources/AIMBOT.py:86-90 | a 10×10 square at (45, 45) in the 100-pixel ROI gives the offset (0, −5) |
| Pipeline.FrameMask | resources/AIMBOT.py:60-77 | the mask of any frame is at most 100×100, and exactly 100×100 for a frame at least that large |
| Pipeline.ProcessFrame | resources/AIMBOT.py:56-92 | an absent frame gives (None, None); the two coordinates are both present or both absent; they are present exactly when some contour of the frame's mask has area above 5, and then they are the offset of the first largest contour |
| Pipeline.TargetWithinRoi | resources/AIMBOT.py:60-90 | for any frame, a reported target lies within [−50, 49] on both axes |
| Command.NatToDecimal | resources/AIMBOT.py:49 | `str` of a non-negative int has one or more digits and no leading zero |
| Command.IndexOf | resources/AIMBOT.py:49 | the position of the first occurrence of a character, or none when it does not occur |
| Command.SplitMove | resources/AIMBOT.py:49 | a line that splits is `MOVE ` + first text + `,` + second text + newline, with no comma in the first text |
| Command.SplitUnique | resources/AIMBOT.py:49 | a line has only one such split |
| Command.DigitsRoundTrip | resources/AIMBOT.py:49 | the digits `str` prints for a non-negative int read back to that int |
| Command.DecimalOfDigits | resources/AIMBOT.py:49 | a digit string without a leading zero is how its own value prints |
| Command.IntRoundTrip | resources/AIMBOT.py:49 | every int, negative ones included, reads back from its printed form |
| Command.DecimalOfParsedInt | resources/AIMBOT.py:49 | every text the integer parser accepts is how its value prints |
| Command.ParseEncodeMove | resources/AIMBOT.py:49 | parsing `MOVE x,y\n` gives back (x, y) |
| Command.EncodeParsedMove | resources/AIMBOT.py:49 | every line the parser accepts is the encoding of the pair it returns |
| Command.MoveIsAscii | resources/AIMBOT.py:49-51 | the command is pure ASCII, so `str.encode()` gives one byte per character |
| Command.AsciiBytes | resources/AIMBOT.py:51 | encoding gives one byte below 128 per character, and decoding the bytes gives back the string |
| Command.MoveBytes | resources/AIMBOT.py:49-51 | the bytes written are ASCII and decode and parse back to (x, y) |
| Command.CentredSquareCommand | resources/AIMBOT.py:49 | the offset (0, −5) is sent as `MOVE 0,-5\n` |
| Aimbot.FirstOpenIndex | resources/AIMBOT.py:24-32 | the position of a port that opens with no earlier port opening; none exactly when no port opens |
| Aimbot.TickTarget | resources/AIMBOT.py:104-109 | a tick has a target exactly when its frame is present and `process_frame` reports coordinates, and the target is those coordinates |
| Aimbot.IterationEvents | resources/AIMBOT.py:103-110 | an iteration makes at most one call, makes one exactly when the frame yields a target, and that call is a write to the connected port, with the iteration's write outcome, whose bytes parse back to the frame's target |
| Aimbot.TargetTicks | resources/AIMBOT.py:103-110 | the number of targeted iterations is at most the number of iterations |
| Aimbot.CleanupEvents | resources/AIMBOT.py:119-124 | the camera is stopped first exactly when there is one; the port is closed last exactly when there is one and stopping did not raise; at most two calls, only stops and closes, a stop always comes before a close, and the port closed is the connected one; exactly one stop when there is a camera plus one close when there is a port and stopping did not raise, nothing else |
| Aimbot.FirstOpenAt | resources/AIMBOT.py:24-30 | a port that opens after all earlier ones failed is the port the scan keeps |
| Aimbot.ScanIsOrdered | resources/AIMBOT.py:24-32 | the scan makes one attempt per port, in list order, and stops right after the first port that opens (or after trying all of them) |
| Aimbot.SerialScanOrder | resources/AIMBOT.py:23-36 | attempt i is COM(2+i). When some port in 2..10 opens, the kept port is the lowest that opens and exactly that many attempts are made. When none opens, all nine are tried and the previous connection is kept |
| Aimbot.CountWritesAppend | resources/AIMBOT.py:103-110 | writes in a log split into two parts add up |
| Aimbot.OneCommandPerTargetTick | resources/AIMBOT.py:103-112 | the loop writes exactly once per iteration whose frame yields a target, so never more than once per iteration |
| Aimbot.LoopWritesTargets | resources/AIMBOT.py:103-110 | the loop's calls match the targeted ticks one to one and in order: the i-th call is a write to the connected port whose bytes parse back to the i-th target |
| Aimbot.WrittenMovesStayInRoi | resources/AIMBOT.py:103-110 | for frames of any size, with boxes inside the mask, every logged call the loop makes is a write to the connected port whose bytes parse back to a move within [−50, 49] on both axes |
| Aimbot.ColorAimbot.constructor | resources/AIMBOT.py:8-21 | starts with no devices and not running, then the serial scan and the camera setup: the connection is the first port that opens, and the log is the scan's attempts followed by the camera start |
| Aimbot.ColorAimbot.SetupSerial | resources/AIMBOT.py:23-36 | the connection becomes the first of COM2..COM10 that opens, or stays as it was when none does; exactly the scan's attempts are logged |
| Aimbot.ColorAimbot.SetupCamera | resources/AIMBOT.py:38-45 | the camera becomes what `create` returned (None included) and is started when present; a raising `create` leaves the camera as it was and calls nothing |
| Aimbot.ColorAimbot.SendMouseMove | resources/AIMBOT.py:47-54 | with a connection, exactly one write of the encoded command; without one, nothing; a failed write is swallowed |
| Aimbot.ColorAimbot.Run | resources/AIMBOT.py:94-117 | without both devices it changes nothing; otherwise the log gains the loop's writes, then cleanup's calls, `running` ends false, and the result tells whether cleanup raised |
| Aimbot.ColorAimbot.Loop | resources/AIMBOT.py:102-115 | the loop logs each iteration's calls in order, over every tick before the interrupt |
| Aimbot.ColorAimbot.Iterate | resources/AIMBOT.py:104-110 | one iteration logs exactly the move for the frame's target, if it has one |
| Aimbot.ColorAimbot.Cleanup | resources/AIMBOT.py:119-124 | clears `running`; stops the camera if there is one; closes the port if there is one, unless stopping raised |

## Left out

- `cv2.cvtColor`, `cv2.dilate`, `cv2.findContours`, `cv2.contourArea` and `cv2.boundingRect` are not modelled numerically. They are parameters, bundled in `Pipeline.Vision`:
  - the colour conversion is a per-pixel function;
  - dilation only has to keep the mask's shape;
  - contour extraction yields candidates, each an area (a real number, as `contourArea` returns a float) and a box.
- The 2×2 kernel and the two iterations are part of the abstract dilation.
- Masks are booleans rather than bytes 0/255.
- The device libraries (`serial`, `dxcam`) are outside the model:
  - whether a port opens, what `dxcam.create()` returns and whether `camera.start`, a write or `camera.stop()` fails are parameters;
  - the calls `dxcam.create()` and `camera.get_latest_frame()` do not appear in the `calls` log; only their results enter, as `CreateOutcome` and each tick's frame;
  - the baud rate, the serial timeout and the 144 fps target are not modelled;
  - COMn is recorded as its number.
- `print` and `time.sleep` (the two-second pause after connecting and the one-millisecond pause per iteration) are not modelled, because they do not change state.
- The operator's `KeyboardInterrupt` is modelled as arriving between two iterations, after the ticks given to `Run`. An interrupt in the middle of an iteration is not modelled.
- Exceptions the source does not catch are not modelled:
  - from `process_frame` (OpenCV raises on an empty ROI, which happens only when the frame has no rows or no columns);
  - from `get_latest_frame`;
  - from `serial_conn.close()`.
  Frames smaller than the ROI are cropped as Python slicing does (`Frames.Slice`, `Frames.CropRoi`), giving a smaller, non-empty ROI that is not centred: on a side shorter than 100 the start is negative and Python counts it from the far end, so the ROI hugs the bottom or right edge (a 98-row frame has `fov_top == -1`, which selects only row 97).
- The `int(...)` conversion in `run` is the identity here, because offsets are already integers.
- The `if __name__ == "__main__":` block is not modelled, because it only builds the object and calls `run`.
