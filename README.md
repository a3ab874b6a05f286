# ShellenC command loop, modelled in Dafny

ShellenC is a small interactive shell written in C. `main` runs a loop:

1. It reads a line with `fgets` into `char command[256]`.
2. It cuts the line at its first newline (`command[strcspn(command, "\n")] = 0`).
3. It splits the line with `strtok(…, " ")` into at most three slots of `char *args[3]`.
4. It runs an if/else chain over `args`, which decides which filesystem action to call.

For `chmod`, the action reads a three-character mode string as an octal number.

This project models that core.

- `cstrings.dfy` (module `CStrings`) covers C strings as NUL-terminated buffers, and `strcspn` as a loop over an `array<char>`.
- `tokenizer.dfy` (module `Tokenizer`):
  - gives the value semantics of `strtok` with the single delimiter `' '`: one call is `NextToken`, the calls `main` makes are `Split`;
  - defines `Words`, an independent scanner that reads a line one character at a time; the lemmas prove that `Split` keeps exactly the first three of its words.
- `permissions.dfy` (module `Permissions`) covers the mode arithmetic of `change_permissions`, including the conversion to `mode_t`. `FormatMode` is an octal formatter that serves as its inverse on octal input.
- `dispatch.dfy` (module `Commands`) covers the if/else chain:
  - `Dispatch` reads `args` slot by slot, as the C code does;
  - `Decide` is a command table over the token list;
  - a lemma proves that the two agree on every slot array the tokenizer can leave.
- `shell.dfy` (module `Shell`) holds `main`'s state as a class:
  - the fields are the `command` buffer, the `args` array and strtok's saved position;
  - `ReadLine`, `StripNewline`, `Strtok`/`Resume` and the tokenizer loop `Tokenize` are methods that update these buffers in place, and each is proved against the pure functions above;
  - `Run` drives the loop over a sequence of input lines and returns the decision taken for every line that is not blank.

A slot of `args` is `Unset` (never written), `Null`, or `Ptr(token)`. In C a slot is a pointer into `command`. The model stores the token's characters in the slot, and proves that the pointer reading agrees: after `Step`, every token of the line still stands in `command` at the position strtok's pointer addresses (`Starts`), followed by NUL, and `strtok`'s later cuts, which only turn spaces into NUL, never overwrite it. A slot the current line did not write keeps an old token. In C that pointer would address whatever the new line left in `command`. The proofs show that the chain never reads such a slot.

Two behaviours of the code are easy to misread:
- Only the space character separates tokens, because `strtok` is given `" "`. A tab or a carriage return stays inside a token (`WordsCover`, `SingleToken`).
- The mode sum is an `int` assigned to a `mode_t`. A character below `'0'` can make the sum negative (for example `"/00"` gives -64), and the conversion then wraps it around (`ToModeT`, `NegativeModeWraps`). A later digit can outweigh it: `"/99"` gives 17. The width of `mode_t` depends on the platform. The model takes the 32-bit unsigned `mode_t` of Linux with glibc, so the sum wraps modulo 2^32.

## Model

| member | source | states |
|---|---|---|
| CStrings.PrefixBefore | ShellenC.c:130 | The result is a prefix of the input that contains no stop character. If it is shorter than the input, the next character is a stop. |
| CStrings.Strcspn | ShellenC.c:130 | The returned index is inside the buffer and holds either NUL or a rejected character. Everything before it is the stop-free prefix of the buffer. |
| Tokenizer.SkipDelims | ShellenC.c:133-135 | The position it returns lies between i and the end, and the character there is not a space. |
| Tokenizer.TokenEnd | ShellenC.c:133-135 | The position it returns lies between i and the end, and the character there is a space. |
| Tokenizer.SkipDelimsSpaces | ShellenC.c:133-135 | Every character strtok skips before a token is a space. |
| Tokenizer.TokenEndRun | ShellenC.c:133-135 | No character inside a token is a space. |
| Tokenizer.NextToken | ShellenC.c:133-135 | A NULL result leaves the saved position at the end of the string. A token is non-empty and holds no space, and the saved position moves forward past it. |
| Tokenizer.NoTokenWhenBlank | ShellenC.c:133-135 | strtok returns NULL exactly when only spaces remain from the saved position. |
| Tokenizer.SplitFrom | ShellenC.c:134-135 | n calls yield at most n tokens. Each token is non-empty and holds no space. |
| Tokenizer.Split | ShellenC.c:132-136 | A line gives at most three tokens. Each token is non-empty and holds no space. |
| Tokenizer.SplitBlank | ShellenC.c:132-138 | A line gives no token exactly when it is empty or all spaces. |
| Tokenizer.WordsOfNextToken | ShellenC.c:133-135 | One strtok call returns the first word of the rest of the line, and the remaining words start at the saved position. |
| Tokenizer.SplitFromWords | ShellenC.c:134-135 | n successive calls return the first n words of the rest of the line. |
| Tokenizer.SplitIsFirstWords | ShellenC.c:132-136 | The tokens are the first three maximal runs of non-space characters, in order. |
| Tokenizer.SurplusTokensIgnored | ShellenC.c:134 | If a line already has three words, appending a space and any further text leaves the tokens unchanged. |
| Tokenizer.WordsCover | ShellenC.c:133 | Only `' '` delimits: joining the words gives every non-space character of the line, in order. |
| Tokenizer.SingleToken | ShellenC.c:133 | A non-empty line with no space, whatever else it contains, is a single token. |
| Permissions.ToModeT | ShellenC.c:106-108 | The conversion to `mode_t` lies in 0..2^32-1, is congruent to its input, and leaves values already in range unchanged. |
| Permissions.ParseMode | ShellenC.c:107-111 | The format is invalid exactly when the length is not 3. Otherwise the mode is a `mode_t` value. |
| Permissions.ChangePermissions | ShellenC.c:105-116 | It reports a format error, with no chmod call, exactly when the length is not 3. Otherwise it calls chmod on the given file with the parsed mode. |
| Permissions.FormatMode | ShellenC.c:100-101 | A mode in 0..511 is written as three octal digit characters. |
| Permissions.ParseModeIsBase8 | ShellenC.c:108 | Any three characters are read as a base-8 numeral, with the digit values c - '0', and the result is converted to `mode_t`. |
| Permissions.OctalModeInRange | ShellenC.c:107-108 | Three octal digits give exactly the octal number they denote, and it lies in 0..511. |
| Permissions.FormatThenParse | ShellenC.c:107-108 | Parsing the three-digit octal form of any mode in 0..511 gives that mode back. |
| Permissions.ParseThenFormat | ShellenC.c:107-108 | Parsing three octal digits and formatting the result gives the same string back. |
| Permissions.DecimalDigitsAccepted | ShellenC.c:107-108 | Digits 8 and 9 are not refused. Any three decimal digits give a mode in 0..657. |
| Permissions.NonOctalDigitsQuirk | ShellenC.c:108 | "999" gives 657, "080" and "100" both give 64, and "778" gives 512, which lies outside the nine permission bits. |
| Permissions.NegativeModeWraps | ShellenC.c:106-108 | "/00" gives a negative sum, and the mode wraps to 2^32 - 64. "/99" also starts below '0' but gives 17, with no wrap. |
| Commands.Dispatch | ShellenC.c:138-156 | The chain gives the blank decision exactly when args[0] is NULL. |
| Commands.DecideCases | ShellenC.c:138-156 | The decision is blank exactly when there are no tokens, and help exactly when the first token is "help". It is unknown exactly when the first token is not a command name, or is one but lacks a required argument. |
| Commands.DispatchDecides | ShellenC.c:134-156 | On the slots the tokenizer leaves, the chain reads only written slots. In particular it reads args[2] only after args[1] is non-NULL. It decides exactly as the command table. |
| Commands.SurplusArgumentsIgnored | ShellenC.c:140-153 | Tokens beyond the arguments a command needs do not change the decision. |
| Commands.CommandArguments | ShellenC.c:140-151 | A path command acts on the first argument. chmod acts on the first two arguments, the mode first. |
| Shell.Chomp | ShellenC.c:130 | The text strtok receives is a prefix of the line with no newline and no NUL, cut at the first of those characters. |
| Shell.NonBlankMembers | ShellenC.c:138-139 | A decision appears among those taken exactly when it was made for some line and is not blank. |
| Shell.DecisionsAppend | ShellenC.c:124-157 | The decisions for two runs of lines are the decisions for each run, concatenated. |
| Shell.BlankLineSkipped | ShellenC.c:130-139 | A line that is empty, all spaces, or only a newline produces no decision. |
| Shell.ChmodLine | ShellenC.c:150-151 | A chmod decision passes the second and third tokens to change_permissions. That call refuses exactly the modes whose length is not 3. |
| Shell.FillSplit | ShellenC.c:132-136 | From call i on, the slots receive the remaining tokens, then NULL if there is room. The other slots keep their contents. |
| Shell.FillHolds | ShellenC.c:132-136 | After the tokenizer statements, the slots hold the tokens of the line, followed by NULL when there are fewer than three. A slot after that NULL keeps its old content. |
| Shell.Shell.ReadLine | ShellenC.c:126 | The buffer holds the line, followed by a NUL. |
| Shell.Shell.StripNewline | ShellenC.c:130 | The C string left in the buffer is the old buffer cut at its first newline or NUL. The whole new buffer is the old one with a single NUL written at that index. |
| Shell.Shell.Strtok | ShellenC.c:133-135 | A call with the buffer restarts on the buffer's C string. Each call returns what NextToken returns and saves NextToken's position. A returned token is stored NUL-terminated in `command` where NextToken found it. The new buffer is `CutAfter` of the old one: only the space that ends the token becomes NUL. |
| Shell.Shell.Resume | ShellenC.c:133-135 | The in-place scan returns the next token or NULL, and saves the position that NextToken gives. A returned token is stored in `command` where it starts, ended by NUL. The only change to `command` is the one NUL written over the space that ends the token (`CutAfter`). |
| Shell.Shell.Cut | ShellenC.c:133-135 | Once a token starts at b, the scan returns it and leaves it in `command` at b, ended by NUL. The new buffer is the old one with a single NUL over the space after the token, or unchanged at the end of the string. |
| Shell.Shell.Tokenize | ShellenC.c:132-136 | After the statements, the slots equal `Fill` applied to the old slots and the line. Together with FillHolds, this means the slots hold the line's tokens followed by NULL. The recorded starts equal `Starts` of the line, which are the positions strtok's pointers address. Every slot written up to the last call points at its token, which is still in `command`. |
| Shell.Shell.FirstSlot | ShellenC.c:133 | The restarting call writes NextToken's result into args[0], records where the token starts, and leaves it addressed in `command`. |
| Shell.Shell.NextSlot | ShellenC.c:135 | A resumed call writes NextToken's result into args[i], records where the token starts, and keeps every earlier token addressed in `command`. |
| Shell.Starts | ShellenC.c:132-136 | Call i records the position where strtok's skip lands, and leaves the positions recorded by earlier calls unchanged. |
| Shell.StartsExample | ShellenC.c:132-136 | On "ab ab" the pointers address positions 0 and 3. |
| Shell.TokenAtKept | ShellenC.c:133-135 | Turning spaces into NUL leaves every token in place, with its terminator. |
| Shell.AllAtTokens | ShellenC.c:132-136 | Once the slots hold the line's tokens, every token the chain reads is stored in the buffer at its recorded start. |
| Shell.Shell.Step | ShellenC.c:126-156 | One iteration of main's loop, on the real buffers and from any earlier state, takes exactly the decision `Decide(Split(Chomp(line)))`, so nothing an earlier line leaves in the buffers affects a later line. Afterwards each slot holding a token of the line points at that token. The token is stored in `command`, ended by NUL, at the position `Starts` gives. |
| Shell.Run | ShellenC.c:121-157 | The loop over the input lines returns one decision per line that is not blank, in input order. |

## Left out

- The filesystem actions are not modelled: create_directory, delete_directory, create_file, list_directory_contents, show_file_contents, the chmod system call, and their perror diagnostics (ShellenC.c:14-83, ShellenC.c:113-115). The model stops at the decision (`Command`) or at the mode passed to chmod (`ModeChange`). What the operating system does with them is I/O.
- show_help and all printing are not modelled: the help text, the `"> "` prompt, and the `"Unknown command"` and `"Invalid permissions format"` messages. The decisions `Help`, `Unknown` and `FormatError` stand in for them.
- Reading standard input is not modelled. `Run` takes the lines `fgets` would return as a parameter, and end of input is the end of that sequence. `fgets` splits a line longer than 255 characters into several reads. Here each line is a read of at most 255 characters, and the caller does that splitting.
- Characters are Dafny `char` values, not C bytes. The model therefore does not capture signed-char effects for bytes of 0x80 and above, or encodings.
- Shell.Run: the C loop runs until `fgets` returns NULL, at the end of input or on a read error. `Run` models both by the end of the sequence. A read error is not distinguished from the end of input.
- Permissions.ToModeT: assumes a 32-bit `mode_t`, as on Linux with glibc. Where `mode_t` is 16 bits wide (macOS, FreeBSD), a negative sum wraps modulo 2^16, for example `"/00"` gives 65472. The model does not cover that case.
- Shell.Shell.Strtok: only the delimiter `" "` is modelled. The `restart` flag stands for a non-NULL first argument. A scan saved from a previous line is never resumed, because every line starts with a restarting call.
