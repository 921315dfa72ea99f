# Keyboard teleoperation of the turtle, modelled in Dafny

This project models the keyboard teleoperation node, `TeleopTurtle::keyLoop`.
Each iteration of the loop does four things:

1. It reads one key byte.
2. It zeroes the motion command and reloads the stored speeds.
3. It handles the key:
   - an arrow key builds a linear or angular command;
   - `p` raises both stored speeds by 0.2 (capped at 3.0);
   - `m` lowers both by 0.2 (a negative result becomes 0.2);
   - `q` ends the loop;
   - any other byte is ignored.
4. When the command is new (the `dirty` flag is set), it publishes the scaled command on the `cmd_vel_linear_x` and `cmd_vel_angular_z` channels.

The blocking read and the publishing are replaced by data:

- The input is a sequence of read outcomes. `Got(b)` means one byte was read. `NoData` means the read returned 0 bytes. `Failed` means the read reported an error.
- The output is a transcript: the publications, whether the loop ended (because of `q` or a read error), and the loop head it stopped at.

Modules:

- `Keys` — the key codes and the action each key selects.
- `Speed` — the `p`/`m` speed adjustments. It also gives an exact integer description of the reachable speeds: `ticks` counts steps of 0.2, ranges over 0..15 and starts at 5.
- `Messages` — read outcomes, publications, the scales (default 2.0), and the scaling of a command.
- `Teleop` — the loop state (`vit_lin`, `vit_ang`, the two save slots, `dirty`, and the last key `c`), one iteration (`Step`), the run over a whole input (`Run`), and the loop as a method (`KeyLoop`).
- `Reference` — a simpler machine with one tick counter. It has no save slots, no restore step and no dirty flag.
- `Refinement` — proves that from the initial speeds the loop publishes exactly what the reference machine publishes, over any input.

What the proofs establish about the program as written:

- At every loop head, `vit_lin == vit_ang`: both start at 1.0 and always receive identical updates. So the backward key's use of `-vit_ang` (instead of `-vit_lin`) cannot be observed from the initial state.
- At every loop head, each speed equals its save slot. So the restore at the top of the iteration changes nothing. Because that `if` has no braces, its guard covers only `vit_lin`; the angular reload runs every time, which the model keeps.
- At every loop head, `dirty` is false. A movement key sets it and the same iteration publishes and clears it. So exactly the four arrow keys publish, and `p`, `m`, `q` and ignored keys publish nothing.
- Both speeds stay within [0, 3.0]. Each publication drives at most one channel, by at most 3.0 times that channel's scale.
- Speeds are exact reals. So five presses of `m` from 1.0 reach exactly 0.0, which `m` keeps because 0.0 is not below 0. After that an arrow key publishes a zero command. In the program's `double` arithmetic the same five presses leave a tiny positive speed instead of 0.0. Other inputs can make the two arithmetics differ by a whole step (see "Floating point" under "## Left out").
- A read that delivers no byte leaves `c` unchanged, so the loop handles the previous key again. The model keeps this. The key variable's value before the first read (it is uninitialised) is the parameter `c0`.

## Model

| member | source | states |
|---|---|---|
| Keys.Classify | src/teleop_turtle_key.cpp:199-264 | the switch's case labels: exactly the four arrow codes select a movement, and exactly 'q' ends the loop |
| Keys.CodeOf | src/teleop_turtle_key.cpp:13-29 | every handled action has its own key code, and that code selects the action |
| Keys.ClassifyExact | src/teleop_turtle_key.cpp:199-264 | the switch is exact: a handled key is the code of its action, and exactly the seven codes (arrows, p, m, q) are handled |
| Keys.UnhandledLettersIgnored | src/teleop_turtle_key.cpp:17-29 | the other letter codes, including the commented-out stop key 's', fall through the switch unhandled |
| Speed.Increase | src/teleop_turtle_key.cpp:222-227 | after 'p' a speed is at most 3.0; it is raised by exactly 0.2 whenever that stays within 3.0, and otherwise capped at 3.0 |
| Speed.Decrease | src/teleop_turtle_key.cpp:237-242 | after 'm' a speed is non-negative, and it is either lowered by exactly 0.2 or reset to 0.2 |
| Speed.InitialOnGrid | src/teleop_turtle_key.cpp:180-181 | the initial speed 1.0 is five steps of 0.2 |
| Speed.IncreaseOnGrid | src/teleop_turtle_key.cpp:220-227 | on speeds that are whole multiples of 0.2 up to 3.0, 'p' adds one step and saturates at 15 steps |
| Speed.DecreaseOnGrid | src/teleop_turtle_key.cpp:235-242 | on those speeds, 'm' removes one step, except that 0 becomes one step |
| Speed.GridBounds | src/teleop_turtle_key.cpp:224-242 | speeds of 0 to 15 steps lie within [0, 3.0] |
| Speed.AdjustKeepsRange | src/teleop_turtle_key.cpp:220-242 | both 'p' and 'm' keep a speed in [0, 3.0] inside that range |
| Messages.Scaled | src/teleop_turtle_key.cpp:269-272 | the published value is the command times the scale: a zero command publishes 0, and a unit scale publishes the command itself |
| Messages.KeyFor | src/teleop_turtle_key.cpp:50-55 | a read of one byte yields that byte; a read of no byte leaves the key variable unchanged |
| Teleop.Init | src/teleop_turtle_key.cpp:166-181 | the loop starts with both speeds and save slots at 1.0 and nothing dirty, which satisfies the loop-head invariant |
| Teleop.Restore | src/teleop_turtle_key.cpp:195-197 | the angular speed is always reloaded from its save slot; the linear speed is reloaded only when one of the speeds is 0 |
| Teleop.Dispatch | src/teleop_turtle_key.cpp:199-264 | only 'q' leaves the loop; a command drives at most one channel; non-movement keys leave the command zero; the new command is dirty exactly when a movement key was pressed or it was already dirty |
| Teleop.Step | src/teleop_turtle_key.cpp:183-279 | a failed read ends the loop with an error and 'q' ends it as a quit; otherwise dirty is cleared, the key is remembered, and something is published exactly when the key is a movement key or dirty was set; a publication drives at most one channel |
| Teleop.StepPreservesInv | src/teleop_turtle_key.cpp:192-264 | from a loop head with equal speeds, speeds equal to the save slots, speeds in [0, 3.0] and nothing dirty, the next loop head has all of these too |
| Teleop.RestoreIsNoOp | src/teleop_turtle_key.cpp:195-197 | at such a loop head the restore changes nothing |
| Teleop.MovementKeys | src/teleop_turtle_key.cpp:200-219 | LEFT publishes (0, a·vit_ang), RIGHT (0, a·−vit_ang), UP (l·vit_lin, 0), and DOWN (l·−vit_ang, 0), using the restored speeds; dirty is then cleared |
| Teleop.SpeedKeys | src/teleop_turtle_key.cpp:220-249 | 'p' and 'm' adjust both restored speeds, copy them into the save slots and publish nothing; after 'p' both are ≤ 3.0 and after 'm' both are ≥ 0 |
| Teleop.BackwardUsesLinearSpeed | src/teleop_turtle_key.cpp:215-219 | at a loop head satisfying the invariant, DOWN publishes the negated linear speed, so using the angular speed there is not observable |
| Teleop.PublishesExactlyOnMovement | src/teleop_turtle_key.cpp:261-278 | at such a loop head, a key publishes if and only if it is an arrow key, and 'q' is the one key that ends the loop |
| Teleop.Run | src/teleop_turtle_key.cpp:183-279 | over any input, every publication drives at most one channel, and there are at most as many publications as reads |
| Teleop.QuitEndsLoop | src/teleop_turtle_key.cpp:261-263 | after 'q' nothing more is read or published |
| Teleop.DefaultScalesFirstCommand | src/teleop_turtle_key.cpp:137-138 | with the default scales of 2.0, the first up arrow publishes (2.0, 0) and the first left arrow publishes (0, 2.0) |
| Teleop.RunPreservesInv | src/teleop_turtle_key.cpp:177-264 | over any input, every loop head reached from one satisfying the invariant satisfies it |
| Teleop.SpeedsStayInRange | src/teleop_turtle_key.cpp:177-245 | from the initial speeds, both speeds stay within [0, 3.0], equal each other and equal their save slots over any input |
| Teleop.KeyLoop | src/teleop_turtle_key.cpp:166-282 | the loop, run until the input is exhausted, a read fails or 'q' is pressed, produces the transcript of the run, ends at a loop head satisfying the invariant, and publishes only commands that drive one channel |
| Reference.RefStep | src/teleop_turtle_key.cpp:199-264 | a reference step keeps the speed count within 15 steps |
| Reference.RefRunBounded | src/teleop_turtle_key.cpp:220-272 | every reference publication drives one channel, by at most 3.0 times its scale |
| Refinement.InitRefines | src/teleop_turtle_key.cpp:177-181 | the initial loop head corresponds to the reference state with five steps |
| Refinement.StepRefines | src/teleop_turtle_key.cpp:192-278 | from corresponding states, one iteration and one reference step end alike, publish the same value and reach corresponding states |
| Refinement.RunRefines | src/teleop_turtle_key.cpp:183-279 | from corresponding states, over any input, the loop and the reference publish the same sequence, end the same way and stop at corresponding states |
| Refinement.LoopMatchesReference | src/teleop_turtle_key.cpp:166-282 | from the initial state the loop's transcript is the reference machine's, and its final speed is the reference step count times 0.2 |
| Refinement.PublishedBounded | src/teleop_turtle_key.cpp:269-277 | every value the loop publishes from the initial state drives one channel, by at most 3.0 times that channel's scale |
| Refinement.FiveDecreasesStop | src/teleop_turtle_key.cpp:235-242 | in exact arithmetic, five presses of 'm' bring the speed to 0.0, and the next up arrow publishes a zero command |

## Left out

- Terminal handling in `KeyboardReader`: raw mode, restoring the terminal, and the Windows console key translation (src/teleop_turtle_key.cpp:31-122). This is operating-system I/O. Each read is modelled only by its outcome: one byte, no byte, or an error.
- ROS plumbing: node start-up, reading the scale parameters, advertising and publishing, and debug/info logging (src/teleop_turtle_key.cpp:139-144, 155, 193, 232, 247, 275-276). The `perror` message printed when a read fails (src/teleop_turtle_key.cpp:188) is also output only; the model keeps only the loop ending with a read error. The scales are a `Params` input, and a publication is an entry in the transcript.
- The start-up banner printed with `puts` (src/teleop_turtle_key.cpp:170-175). It is output only.
- Signal handling and process exit (`quit`, `signal`, `exit`, `main`; src/teleop_turtle_key.cpp:147-164).
- Floating point: speeds and scales are exact reals. Repeated ±0.2 on `double` is not exact, and the comparisons at lines 195, 224-227 and 239-242 are modelled as exact real comparisons. The difference can be a whole step and can persist. Take 'p' ten times, then 'm' fifteen times, then the up arrow. With `double`, the fourteenth 'm' leaves about 0.19999999999999962. The fifteenth 'm' gives a slightly negative result, which is reset to 0.2, so the up arrow publishes 0.4 with the default scale. With exact reals the speed reaches 0.0 and the up arrow publishes 0.0.
- The commented-out stop key and the commented-out combined velocity publisher (src/teleop_turtle_key.cpp:142, 251-259, 274). This is dead code.
- include/turtlesim/turtle.h as a whole. It only declares the simulated turtle: pose integration, velocity callbacks, pen, teleport queue and image rotation. Their implementations are not part of this model, and the header alone gives no behaviour to model beyond the shape of its teleport request record.
