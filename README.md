# Enigma machine engine — a Dafny model

This project models the engine of a single-header C Enigma simulator, `enigma.h`. It covers:

- the rotor and reflector catalogue, with rotors I–V and reflectors A, B, C;
- the plugboard;
- the per-letter signal path: plugboard, three rotors forward, reflector, three rotors back, plugboard;
- the rotor stepping, including the double step of the middle rotor;
- the buffer loop behind `enigma_encrypt` and `enigma_decrypt`.

Modules, one per file:

| file | module | models |
|---|---|---|
| `alphabet.dfy` | `Alphabet` | `ALPHABET_SIZE` and `PLUGBOARD_SIZE`; `uint8_t` as `Byte`; `CHAR2CODE` and `CODE2CHAR` with their 8-bit truncation written out |
| `wiring.dfy` | `Wiring` | `init_wiring` as a loop over an array, the table it builds, and the permutation and reflection properties of tables |
| `catalogue.dfy` | `Catalogue` | the alphabet strings, the turnover letters and the name lookup of `init_rotor` and `init_reflector`, plus the proofs that the tables are permutations or reflections |
| `plugboard.dfy` | `Plugboard` | the first-match scan of `apply_plugboard`, as a pure function with lemmas |
| `rotors.dfy` | `Rotors` | the `Rotor` struct as a value, `apply_rotor` as written and corrected, the forward and backward passes, and the stepping rule |
| `enigma.dfy` | `Machine` | the machine state as a value, the spec functions `EncodeChar`, `Encipher` and `After`, the class `Enigma` with one method per C function, and `InitEnigma` |

The heart of the model is the class `Machine.Enigma`. Its fields `plugboard`, `rotors` and `reflector` are the fields of the C struct. Its methods change the rotor offsets in place, as the C code does. Each method is proved against a pure specification function of the state before the call:

- `ApplyRotors` against `ForwardPass`/`BackwardPass` and `StepRotors`;
- `ApplyPlugboard` against `Swap`;
- `ApplyEnigma` against `Encipher` and `After`.

The properties the design promises are lemmas about those functions.

These are the points where the model follows the code's own behaviour:

- The stepping happens after the forward substitution, so the forward pass uses the old offsets. The backward pass uses the new offsets.
- The backward pass goes through the same forward wiring tables. The code has no inverse wiring. The model therefore does not claim that decryption inverts encryption; it states only that `enigma_encrypt` and `enigma_decrypt` perform the identical transformation.
- Rotor `i` of the machine is the `i`-th name given, and index 0 is the fast rotor; the order is not reversed.
- The turnover position is stored in the field the code calls `ring_position`. There is no separate ring setting.
- `init_reflector` compares only the first character of the name.

One point departs from the code. In the C, `apply_rotor` indexes with `code + offset` and does not reduce the index modulo 26 (see Findings). The machine in this model uses the corrected lookup `Rotors.ApplyRotor`, which reduces the index. `Rotors.ApplyRotorAsWritten` models the lookup as written, and `Machine.AsWrittenIndexLeavesTable` shows that the machine reaches an index outside the table.

## Model

| member | source | states |
|---|---|---|
| `Alphabet.CharToCode` | enigma.h:50 | the code is in [0, 26) exactly when the byte is an upper-case letter (8-bit wrap-around for everything else) |
| `Alphabet.CodeToChar` | enigma.h:51 | every code in [0, 26) becomes an upper-case letter |
| `Alphabet.LetterRoundTrip` | enigma.h:50-51 | letter → code → letter gives back the letter |
| `Alphabet.CodeRoundTrip` | enigma.h:50-51 | code → letter → code gives back the code |
| `Wiring.WiringOf` | enigma.h:76-80 | the table has one entry per character of the alphabet string |
| `Wiring.WiringOfLetters` | enigma.h:78 | for a string of letters, every table entry is a code and converts back to the letter it came from |
| `Wiring.InitWiring` | enigma.h:76-80 | the loop fills exactly the first `alphabet_len` entries, each with its character minus 'A' truncated to 8 bits, and leaves the rest of the array unchanged |
| `Wiring.PermutationByInverse` | enigma.h:16 | a table that has an inverse table is a bijection on the 26 codes |
| `Wiring.ReflectionIsPermutation` | enigma.h:46 | a self-inverse table is a bijection and hits every code |
| `Catalogue.RotorByName` | enigma.h:86-101 | a model is found only under its exact label; any other name finds no model |
| `Catalogue.RotorLabelRoundTrip` | enigma.h:86-100 | each of the five rotor models is found under its own label |
| `Catalogue.ReflectorByName` | enigma.h:105-111 | a model is found exactly when the name's first character is A, B or C, and the model found is the one whose letter that character is |
| `Catalogue.ReflectorByNameFirstCharacter` | enigma.h:105-110 | two names with the same first character select the same reflector |
| `Catalogue.RotorAlphabet` | enigma.h:88-100 | every rotor model's alphabet string has 26 characters |
| `Catalogue.ReflectorAlphabet` | enigma.h:106-110 | every reflector model's alphabet string has 26 characters |
| `Catalogue.Turnover` | enigma.h:87-99 | the turnover letter of every rotor model is a code |
| `Catalogue.RotorWiringIsPermutation` | enigma.h:86-100 | the table built from each rotor string is a bijection on the codes |
| `Catalogue.ReflectorWiringIsReflection` | enigma.h:104-111 | the table built from each reflector string is self-inverse and has no fixed point |
| `Plugboard.Swap` | enigma.h:202-211 | if the result differs from the code, some plug holds the code and the result is its other end; the result is a code when the code and all plugs are codes |
| `Plugboard.SwapFirstMatch` | enigma.h:203-208 | the first plug holding the code decides the result, whatever later plugs say |
| `Plugboard.SwapUnplugged` | enigma.h:210 | a code on no plug passes through unchanged |
| `Plugboard.SwapInvolution` | enigma.h:202-211 | when no code is on two plugs, applying the plugboard twice gives back the code |
| `Plugboard.SwapPairedCodes` | enigma.h:204-207 | when no code is on two plugs, the two ends of every plug are exchanged |
| `Rotors.CatalogueRotor` | enigma.h:83-102 | a configured rotor has offset 0, its model's turnover position and wiring, and that wiring is a permutation |
| `Rotors.InitRotor` | enigma.h:83-102 | `init_rotor` builds exactly the catalogue rotor of the model named |
| `Rotors.ApplyRotorAsWritten` | enigma.h:141-150 | the lookup at index `code + offset`, defined only while that index is inside the table, returns a code |
| `Rotors.ApplyRotor` | enigma.h:141-150 | the lookup with the index reduced modulo 26 returns a code for every code and offset |
| `Rotors.ApplyRotorAgreesInRange` | enigma.h:147 | wherever the code's index stays in the table, the corrected lookup reads the same entry |
| `Rotors.ApplyRotorInjective` | enigma.h:147 | with a permutation wiring, the corrected lookup sends distinct codes to distinct codes at every offset |
| `Rotors.ForwardPass` | enigma.h:163-165 | the pass through the rotors in index order yields a code |
| `Rotors.BackwardPass` | enigma.h:188-190 | the pass through the rotors from the last index down yields a code |
| `Rotors.PassesOnThree` | enigma.h:161-190 | forward is rotor 0, then 1, then 2; backward is rotor 2, then 1, then 0, through the same forward tables |
| `Rotors.PassesInjective` | enigma.h:163-190 | with permutation wirings, both passes send distinct codes to distinct codes |
| `Rotors.Advance` | enigma.h:183 | a step moves only the offset and keeps it a code |
| `Rotors.StepRotors` | enigma.h:176-183 | stepping keeps three well-formed rotors |
| `Rotors.StepRule` | enigma.h:176-183 | rotor 0 always advances; rotor 1 advances when it or rotor 0 is at its turnover; rotor 2 advances exactly when rotor 1 is at its turnover; all checks use the offsets before the step |
| `Rotors.Steps` | enigma.h:176-183 | `n` steps keep three rotors |
| `Rotors.StepsKeepWiring` | enigma.h:176-183 | stepping never changes a rotor's wiring or turnover position, and keeps the rotors well formed |
| `Rotors.StepsAdd` | enigma.h:176-183 | `a` steps followed by `b` steps are `a + b` steps |
| `Rotors.StepsFirst` | enigma.h:176-183 | one step followed by `n` steps is `n + 1` steps |
| `Rotors.FastRotorAdvance` | enigma.h:183 | after `n` steps rotor 0 has moved by `n` modulo 26 |
| `Rotors.DoubleStep` | enigma.h:176-181 | when rotor 0 is at its turnover and rotor 1 is one short of its own, rotor 1 advances on two consecutive steps and rotor 2 on the second |
| `Rotors.StepsToTurnover` | enigma.h:179-183 | from any offset, rotor 0 sits at its turnover position after `(turnover - offset) mod 26` steps |
| `Rotors.MiddleRotorAdvancesAtTurnover` | enigma.h:176-180 | on the step taken while rotor 0 sits at its turnover, rotor 1 advances |
| `Rotors.MiddleRotorAdvancesWithinCycle` | enigma.h:176-183 | rotor 1 advances at least once in any 26 consecutive steps |
| `Machine.Initial` | enigma.h:114-130 | a configured machine has three rotors |
| `Machine.InitialState` | enigma.h:114-130 | every offset starts at 0; rotor `i` is the `i`-th named model, with no reversal; the reflector is self-inverse without fixed points; the plugboard is the one supplied; the machine is well formed when the plugboard is within its limit |
| `Machine.After` | enigma.h:221-242 | after `n` letters only the rotor offsets have moved; the plugboard and the reflector are unchanged and the machine stays well formed |
| `Machine.EncodeChar` | enigma.h:222-241 | an upper-case letter through the signal path always gives an upper-case letter |
| `Machine.Encipher` | enigma.h:217-243 | a buffer of upper-case letters gives one upper-case letter per input letter |
| `Machine.EncipherAt` | enigma.h:221-241 | output `i` of a buffer is input letter `i` through the machine after it has stepped `i` times: one output per input letter, in order |
| `Machine.FastRotorAfterMessage` | enigma.h:221-242 | after a buffer of `n` letters rotor 0 has moved by `n` modulo 26 |
| `Machine.EncodeCharInjective` | enigma.h:222-241 | with catalogue tables and no code on two plugs, distinct input letters give distinct output letters at every rotor position |
| `Machine.ZAfterOneLetter` | enigma.h:147 | on an empty plugboard, after one letter from offset 0, the letter Z reaches rotor 0 as code 25 with offset 1, and 25 + 1 is the table length |
| `Machine.AsWrittenIndexLeavesTable` | enigma.h:147 | on a freshly built machine with an empty plugboard, the second letter Z makes the code's index `code + offset` fall outside the 26-entry table |
| `Machine.InitReflector` | enigma.h:104-112 | `init_reflector` builds the named model's table, and that table is self-inverse without fixed points |
| `Machine.Enigma.constructor` | enigma.h:114-130 | the new machine is well formed and is exactly the configured initial state |
| `Machine.Enigma.ApplyRotors` | enigma.h:152-200 | forward returns the forward pass on the old offsets and then steps the rotors; backward returns the backward pass and moves nothing; the plugboard and reflector never change |
| `Machine.Enigma.ApplyPlugboard` | enigma.h:202-211 | the early-return scan computes `Swap` of the plugboard |
| `Machine.Enigma.ApplyReflector` | enigma.h:213-215 | the result is the table entry and a code; with a catalogue reflector it differs from the input and reflects back to it |
| `Machine.Enigma.EncodeLetter` | enigma.h:222-241 | one loop iteration outputs `EncodeChar` of the state before it and steps the rotors exactly once |
| `Machine.Enigma.ApplyEnigma` | enigma.h:217-243 | the first `input_len` cells of the output hold `Encipher` of the input, the rest of the buffer is untouched, and the machine ends the buffer stepped `input_len` times |
| `Machine.Enigma.EnigmaEncrypt` | enigma.h:245-249 | the ciphertext buffer holds `Encipher` of the plaintext, and the machine has stepped once per letter |
| `Machine.Enigma.EnigmaDecrypt` | enigma.h:251-255 | the same transformation and the same stepping as `EnigmaEncrypt` |
| `Machine.InitEnigma` | enigma.h:114-130 | there is no machine exactly when the plugboard has more than 10 plugs; otherwise there is a fresh, well-formed machine in the configured initial state |

## Left out

- Console output and process exit: in `init_enigma`, the error message and `exit(0)` for an oversized plugboard become a `null` result of `InitEnigma`; the `[INFO]` lines of `enigma_encrypt` and `enigma_decrypt` are not modelled.
- Memory management: `malloc` in `init_enigma` and `destroy_enigma` with its `free` are not modelled; Dafny allocates the object and collects it.
- The `strlen` assertions of `enigma_encrypt` and `enigma_decrypt`: the model keeps their meaning as a precondition that the output buffer is exactly as long as the input. The NUL terminator is not modelled.
- The unreachable `default` branch of `apply_rotors`: `RotorOrder` has only two values, so the branch cannot occur.
- Unknown rotor or reflector names: `init_rotor` then sets the offset to 0 and leaves the turnover position and the wiring unset, and `init_reflector` leaves the table unset. The machine is configured with the enumerations `RotorName` and `ReflectorName`, under which an unknown name cannot be written. `RotorByName` and `ReflectorByName` model the lookup from a string, returning `None` for an unknown name.
- Input outside A–Z is excluded by preconditions of `Machine.EncodeChar`, `Machine.Encipher`, `Machine.Enigma.EncodeLetter`, `Machine.Enigma.ApplyEnigma`, `Machine.Enigma.EnigmaEncrypt` and `Machine.Enigma.EnigmaDecrypt`. In the C code, such a letter becomes a code of 26 or more, for example 32 for 'a'. It then reads outside the 26-entry rotor table.
- `Machine.Enigma.constructor` and `Machine.InitEnigma`: require every plugboard entry to be a code below 26. The C code does not check this. In the C, an entry of 26 or more that a letter reaches goes straight into the rotor lookup and reads outside rotor 0's table. In the model the passes always yield codes, so such an entry would only matter at the final plugboard swap, where it could give a non-letter output.
- The plugboard is copied by value. `e->plugboard = plugboard` in the C copies a pointer to the caller's pair array, so a later change to that array would change the machine. The model does not capture this aliasing.
- `Rotors.ForwardPass`, `Rotors.BackwardPass`, `Machine.Enigma.ApplyRotors`, `Machine.EncodeChar`, `Machine.Encipher` and `Machine.Enigma.ApplyEnigma` read the entry at `(code + offset) mod 26` wherever the C index `code + offset` reaches 26 to 50. The C read there is undefined behaviour. From that letter on, their outputs are those of the corrected machine, not of the C code. For example, rotors I, II, III, reflector B, no plugs and the input "AZ" give index 26 on the second letter.
- Out-of-range reads: the model does not model the value the C code reads past the end of a rotor table. It substitutes the wrapped entry, as the line above says, and shows that index 26 is reached (see Findings).
- The repository's example programs `cli.c` and `simple.c` are not part of this model; they are front ends around the engine.
- Reciprocity is not stated: the backward pass goes through the forward wiring, so encrypting a ciphertext does not in general give back the plaintext, and the model claims nothing about it.
- Ring settings other than the turnover position, which the code does not implement, are not modelled.

## Findings

| source | as written | input that shows it | evidently intended | confidence | as-written member | corrected member |
|---|---|---|---|---|---|---|
| enigma.h:147 | `apply_rotor` indexes the 26-entry wiring with `char_code + offset`, unreduced, while the offset ranges over 0–25 | a freshly built machine with an empty plugboard and the input "AZ": after A, rotor 0 has offset 1 and Z arrives as code 25, so the index is 26, one past the end of the table | the index `(char_code + offset) mod 26`, so that the rotor rotates the table cyclically | not executed | `Rotors.ApplyRotorAsWritten` with `Machine.AsWrittenIndexLeavesTable` | `Rotors.ApplyRotor` with `Rotors.ApplyRotorAgreesInRange` and `Rotors.ApplyRotorInjective` |
