# Proofs about the TikTok request signer

This project models the byte-level core of a C library that signs requests: the encoders, ciphers, hash and parsers behind
the headers X-Argus, X-Ladon, X-Gorgon, X-Khronos, X-Tt-Request-Ticket and X-SS-Stub, and its JSON reader. It proves that
every layer can be undone, that the in-place loops compute clean mathematical specifications, and that the headers of one
request agree with each other.

The main results:

- Opening the six headers of a request gives back what went into them (`Signer.HeadersAgree`). For X-Argus that is an
  equivalence: what went in comes back if and only if the inputs avoid what the varint writer spoils by stopping one
  value too early, which is 128 for a reader that knows it and leading base-128 digits 1,0 for a standard one
  (`ArgusMessage.EndToEnd`, `ArgusMessage.HeaderRead`, `Protobuf.StandardReading`, `Protobuf.WriterInjective`).
- The encryption of a message of any length is inverted layer by layer (`Argus.ArgusRoundTrip`, `Ladon.LadonRoundTrip`),
  down to two-sided inverses of SIMON128/256, SPECK128/256, the SM3 round loop and the Gorgon scramble.
- The published vectors hold: the digest of "abc" of GB/T 32905-2016, SIMON128/256 and SPECK128/256 with the sequence z4
  of ePrint 2013/404, and the X-Gorgon of a recorded request (`Sm3Example.AbcDigest`, `SimonExample.PublishedVector`,
  `SpeckExample.PublishedVector`, `GorgonExample.Vector007`).
- The byte table that X-Ladon overwrites while it reads from it is the SPECK128/256 key schedule (`Ladon.BuildTable`).
- A query string parses back to the first non-empty value of each key (`UrlEncode.ParseEncoded`).
- The JSON parser accepts exactly the texts that an unambiguous grammar spells, with exactly their trees; every tree of
  C strings and fitting lexemes has such a text, and every text of RFC 8259 is accepted (`JsonGrammar.Accepted`,
  `JsonGrammar.Unambiguous`, `JsonText.PrintThenParse`, `JsonStandard.StandardAccepted`, `JsonStandard.StandardExactly`).

Each module has a functional specification, the lemmas about it, and the C loops as methods over arrays that are proved
against the specification. Inputs that the C code only reads are sequences of bytes; buffers it writes are arrays. A C string is
a sequence without zero bytes, and `HoldsString` says that a buffer holds one with its terminator. Words are bit-vectors, and
their operations are named functions (`Words.dfy`).

| file | models |
|---|---|
| `Bytes.dfy`, `Words.dfy`, `Decimal.dfy` | bytes, C strings, 32- and 64-bit words, printed integers |
| `CryptoHelpers.dfy` | little-endian words and hexadecimal text |
| `Rounds.dfy`, `Simon.dfy`, `BlockMode.dfy`, `Padding.dfy`, `Base64.dfy`, `Argus.dfy` | the layers of X-Argus |
| `Protobuf.dfy`, `ArgusMessage.dfy` | the message writer and the message inside X-Argus |
| `Ladon.dfy` | X-Ladon |
| `Gorgon.dfy` | X-Gorgon |
| `Sm3.dfy` | the SM3 hash |
| `UrlEncode.dfy`, `Signer.dfy` | query strings and the data flow from a request to its headers |
| `MiniJson.dfy`, `JsonParser.dfy` | the JSON parser as functions, and the parser object |
| `JsonText.dfy`, `JsonGrammar.dfy` | JSON texts with free layout, and exactly which of them are accepted |
| `JsonStandard.dfy` | the texts of RFC 8259 |
| `Sm3Example.dfy`, `SimonExample.dfy`, `SpeckExample.dfy`, `GorgonExample.dfy` | published and recorded vectors, step by step |

`dafny verify dfyconfig.toml` verifies the whole project.

Where the code and its documentation disagree, the model follows the code. The repository's README.md calls the cipher
Simon 64/256 with a 64-bit block (lines 19-20 and 282); the code has 64-bit words, a 128-bit block and a 256-bit key,
which is SIMON128/256. It calls X-Ladon's cipher a custom round function (line 49); it is SPECK128/256.

Results that are not what the code's use suggests: 128 is written as 0, so a message with a 128-byte parameter cannot be read back
(`ArgusMessage.LongDeviceIsLost`); dropping the full pad block would lose texts that end in a byte from 1 to 16, but never the
decimal texts X-Ladon encrypts (`Ladon.StripPad`, `Ladon.LadonRoundTrip`); the JSON parser reads a number without characters wherever no
value starts, so it accepts arrays with missing items (`MiniJson.EmptyNumber`, `JsonText.MissingItem`, `JsonGrammar.Accepted`).

## Model

| member | source | states |
|---|---|---|
| Signer.HeadersAgree | src/signer.c:75-259 | For every legal call, told in the fields of the request: there are headers exactly for the versions 8404, 8402, 4404 and 0; X-SS-Stub spells in capitals the digest of the raw body, else of the encoded data, else of the encoded payload; X-Gorgon starts as its version does and carries digests of query, payload (else data) and cookies, and the time; the time headers and X-Ladon read back; and opening X-Argus, by a standard reader or one aware of the writer's quirk, gives device_id, version_name, the two SM3 prefixes and every option under its field number if and only if the call holds no integer which that reader loses, and then all constants too |
| Signer.ArgusAgrees | src/signer.c:94-232 | For a legal call with a known version, and for either reader, X-Argus opens to the first device_id and version_name of the parameters (the given list, or the URL's if none is given), the SM3 prefixes of what the stub spells and of the query string, and each option as a number or text under its field number, if and only if the call is safe for that reader |
| Signer.GorgonAgrees | src/signer.c:94-207 | For each known version X-Gorgon has 52 characters, starts as its version does and carries four digest bytes of the encoded parameters, of the encoded payload (of the data if it is empty, zeros if both are) and of the cookies, the version mark and the time modulo 2^32; version 8404 shows one random byte and the high half of the other |
| Signer.StubRead | src/signer.c:94-165 | X-SS-Stub has 32 characters 0-9A-F and decodes to the MD5 of the raw body, of the encoded data if there is none, and of the encoded payload if there is no data either; the lower-case stub decodes alike |
| Signer.TtSignRequest | src/signer.c:75-259 | For every version, known or not, the data flow of tt_sign, loops and buffers included, computes the six header strings of which Signer.HeadersAgree tells what they say about the request, or BadVersion |
| Signer.ShortCallLegal | src/signer.c:75-259 | Every call with C values whose device_id, version_name, SDK version and device identifier have at most 3700 bytes together is legal |
| Signer.SomeCall | src/signer.c:75-259 | For every MD5 and either reader there is a legal and safe call with version 8404, and there is a function that undoes itself in the place of AES |
| Signer.ParamsFromUrl | src/signer.c:22-73 | The token loop with in-place replacement and the growing array leaves exactly the specified list in the array, which Signer.FromUrlOfPairs describes for every list of pairs |
| Signer.UpsertInto | src/signer.c:48-66 | One turn: the value of a known key is replaced in place, a new key is appended, nothing else changes |
| Signer.FromUrlKeepsLast | src/signer.c:22-73 | For every URL the keys are distinct, in first-occurrence order, each with the last value its tokens give it |
| Signer.FromUrlOfPairs | src/signer.c:22-73 | Behind the first question mark every list of key=value pairs joined by ampersands gives its keys, unquoted, in first-occurrence order with their last values; a lone word is a key with an empty value; a URL without question mark has no parameters |
| Signer.FromUrlOfEncoded | src/signer.c:22-73 | For every list of pairs, the encoded list behind a question mark gives the quoted keys with their last quoted values: nothing is unquoted |
| Signer.UrlRoundTrip | src/signer.c:22-73 | Re-encoding the parameters of any URL and parsing them with the first-wins parser returns the same pairs minus those whose value is empty |
| Signer.UpperStub | src/signer.c:159-165 | The loop over the digest text raises its letters and nothing else |
| Signer.GorgonValue | src/signer.c:138-207 | The version switch with its encoded payload and cookies computes the specified Gorgon result, or none |
| ArgusMessage.EndToEnd | src/argus.c:192-281 | For every parameter list whose message fits, undoing every layer and parsing yields in field 5 the first non-empty device_id, in field 7 the first non-empty version_name (or the empty string), in 13 and 14 the two SM3 prefixes and in the other fields every remaining input, if and only if the message holds no integer that the chosen reader loses; then both nested messages parse too |
| ArgusMessage.HeaderRead | src/argus.c:227-281 | For a reader aware of the quirk and for a standard one: all twenty fields are read back from the header if and only if the inputs keep the integers that this reader loses out of the message |
| ArgusMessage.RequestOpens | src/argus.c:192-281 | A reader finds the two parameters, the two hashes and every other input in the opened header if and only if the request is safe for it: no unsafe request is read as itself by accident |
| ArgusMessage.LongDeviceIsLost | src/argus.c:196-281 | For every parameter list whose first non-empty device_id has 128 bytes, with texts short enough to fit, the request is legal and neither reader gets the fields back |
| ArgusMessage.SomeRequestIsLost | src/argus.c:196-281 | There is a legal request whose fields neither reader gets back, whatever MD5 and AES are |
| ArgusMessage.SafeExactly | src/argus.c:227-274 | For either reader, every written integer is read back exactly when four numbers of the request are (not 128; for a standard reader no leading base-128 digits 1,0) and no text of four has 128 bytes: keys, constants and other lengths never matter |
| ArgusMessage.LookupFirst | src/argus.c:199-204 | The last-match loop over the parsed query finds the first non-empty value given for the name |
| ArgusMessage.FieldsTell | src/argus.c:235-274 | The field list, as it arrives, tells random number (the given one if it is not negative), application, licence, versions, platform, doubled time and device, each under its field number, and the constants 1077940818, 2, eight zeros, "none", 738 and 2; both nested messages parse to their constants |
| ArgusMessage.InnerLengths | src/argus.c:251-271 | Both nested messages fit their 64-byte buffers |
| ArgusMessage.ShortRequestFits | src/argus.c:235-277 | The message fits its 4096-byte buffer whenever device_id, version_name, SDK version and device identifier have at most 3700 bytes together |
| ArgusMessage.BodyHash | src/argus.c:26-43 | Six bytes of SM3 of the decoded stub, or of sixteen zeros when it is empty |
| ArgusMessage.QueryHash | src/argus.c:45-59 | Six bytes of SM3 of the query string, or of sixteen zeros when it is empty |
| ArgusMessage.LookupBoth | src/argus.c:199-204 | The loop ends with the last value of each of the two names |
| ArgusMessage.BuildFields | src/argus.c:196-274 | Parser, hashes, nested serialisers and layout together build the specified field list |
| ArgusMessage.ArgusGetSign | src/argus.c:192-282 | The whole function returns the header of the specification as a terminated string |
| Argus.ArgusRoundTrip | src/argus.c:89-190 | For a bean of every length a reader with constants of its own, which refuses a header without the two leading bytes, the frame's prefixes and its suffix, gets exactly the bean through base64, any left inverse of AES under the two key digests, unmasking, block-wise SIMON decryption and unpadding |
| Argus.UnframeFrame | src/argus.c:89-139 | The same for everything inside AES: prefix, suffix, reversal, mask, cipher and padding come off again |
| Argus.EncPbInverse | src/argus.c:61-76 | Masking with the first eight bytes and reversing can be undone for every buffer of at least eight bytes |
| Argus.DecryptorUndoes | src/argus.c:93-113 | With the fixed key list the SIMON step has an inverse on all blocks |
| Argus.KeyWords | src/argus.c:93-98 | The key list is four given 64-bit words, the little-endian reading of the table |
| Argus.MaskInPlace | src/argus.c:65-69 | The in-place loop masks every byte after the eighth with the original first eight |
| Argus.ReverseInPlace | src/argus.c:70-74 | The swap loop reverses the buffer |
| Argus.EncryptEncPb | src/argus.c:61-76 | Copy, mask and swap compute the specified transformation |
| Argus.EncipherBlocks | src/argus.c:100-113 | The block loop is the block-wise cipher over the whole buffer |
| Argus.ArgusEncryptBean | src/argus.c:89-190 | The whole function returns the specified text as a terminated string |
| Argus.ArgusZeroFree | src/argus.c:173-189 | The text holds no terminator before its end |
| BlockMode.EcbInverse | src/argus.c:102-113 | Running an inverse cipher over the blocks undoes running the cipher, and keeps the length |
| BlockMode.ReadBlockBytes | src/argus.c:103-111 | A block written as sixteen little-endian bytes is read back |
| BlockMode.BlockBytesRead | src/argus.c:103-111 | Sixteen bytes read as a block are written back unchanged |
| Padding.UnpadPad | src/argus.c:78-87 | PKCS#7 unpadding (section 6.3 of RFC 5652) returns the text, for every length |
| Padding.PadWhole | src/argus.c:79-80 | The padded text is whole blocks, one to sixteen bytes longer |
| Padding.PadInjective | src/argus.c:78-87 | Different texts are padded differently |
| Padding.Pkcs7Pad | src/argus.c:78-87 | The filling loop computes the specified padding |
| Base64.DecodeEncode | src/argus.c:173-187 | Decoding undoes encoding for every byte string, including one and two bytes left over |
| Base64.Base64Encode | src/argus.c:173-187 | The loop fills its buffer exactly to the terminator with the encoded text |
| Base64.UnquadQuad | src/argus.c:178-186 | A group of one, two or three bytes is recovered from its four characters |
| Simon.EncryptInverse | src/simon.c:27-42 | For every key and block the seventy-two rounds have a two-sided inverse |
| Rounds.RunInverse | src/simon.c:34-39 | Rounds that can be undone one by one under every key are undone together, from both sides, by running the keys backwards |
| Simon.WindowRecoversMaster | src/simon.c:18-25 | Any four consecutive round keys, run backwards, give the master key |
| Simon.WindowDeterminesSchedule | src/simon.c:18-25 | Keys that agree on four consecutive round keys are equal, with all seventy-two round keys |
| Simon.NextKeyIsPaper | src/simon.c:20-23 | The code's complement and constant 3 equal the round constant 2^64 - 4 of section 3 of ePrint 2013/404 |
| Simon.NextYIsRound | src/simon.c:35-38 | One turn of the round loop is the Feistel round of the specification |
| SimonExample.Z4Starts | src/simon.c:18-24 | The bits that enter round keys 4 to 35 are the first 32 digits of the sequence z4 of ePrint 2013/404 |
| SimonExample.Z4Ends | src/simon.c:18-24 | The bits that enter round keys 36 to 65 are its other 30 digits |
| SimonExample.Z4Repeats | src/simon.c:23 | From every round key on, the sequence repeats with period 62 |
| Simon.KeyExpansion | src/simon.c:18-25 | Filling the array in place yields the key schedule, whose bits are z4 (SimonExample.Z4Starts) |
| Simon.SimonEncrypt | src/simon.c:27-42 | Key expansion and round loop compute the encryption, which meets the published vector (SimonExample.PublishedVector) |
| SimonExample.PublishedVector | src/simon.c:27-42 | The published SIMON128/256 key and plaintext block give the published ciphertext block, through all 72 round keys and rounds |
| Ladon.LadonRoundTrip | src/ladon.c:96-153 | For every three numbers, four random bytes and MD5 function, decrypting the header with the application id known gives back the three numbers, also when the pad block was dropped |
| Ladon.StripPad | src/ladon.c:76-93 | Stripping a last byte of one to sixteen restores the text if and only if the text is not whole blocks, or is empty, or does not end in such a byte |
| Ladon.BuildTable | src/ladon.c:46-74 | After the in-place loop table word i is SPECK128/256 round key i (section 4 of ePrint 2013/404) for i = 0..34, although words 1 to 3 first hold key material |
| Ladon.TableStep | src/ladon.c:63-74 | One turn keeps table prefix, queue and both buffers equal to the textbook schedule's k and l words |
| Ladon.CodeIsPaper | src/ladon.c:64-70 | The code's rotate, add and xor steps are the l- and k-word recurrences |
| Ladon.DecryptorUndoes | src/ladon.c:33-37 | Thirty-four add-rotate-xor rounds have a two-sided inverse by modular subtraction |
| Ladon.SpeckRoundInverse | src/ladon.c:34-36 | One round is undone from both sides |
| Ladon.CodeRoundIsSpeck | src/ladon.c:34-36 | The code's round, with its rotation by 61, is the SPECK round |
| SpeckExample.PublishedVector | src/ladon.c:29-74 | The published SPECK128/256 key and plaintext block give the published ciphertext block, through all schedule words and 34 rounds |
| SpeckExample.IndexIs | src/ladon.c:63-68 | The number that enters step i of the schedule is i |
| Ladon.EncryptLadonInput | src/ladon.c:29-41 | The loop reading round keys from the byte table runs all rounds on the block |
| Ladon.EncryptLadon | src/ladon.c:43-94 | Table, padding and block loop compute the block-wise cipher over the cut padding |
| Ladon.RunBlocks | src/ladon.c:84-89 | The block loop fills the output with the enciphered blocks |
| Ladon.PaddingSize | src/ladon.c:12-16 | The least multiple of 16 that holds the size |
| Ladon.ParseOfMessage | src/ladon.c:108-109 | The three numbers can be taken from the dash-separated text for all integers, negative ones included |
| Ladon.KeyText | src/ladon.c:111-123 | The four key words are, byte by byte, the hexadecimal text of the MD5 of the random bytes and the printed application |
| Ladon.LadonHeader | src/ladon.c:96-154 | The whole function returns the specified header text; its 128-byte text buffer is never too small |
| Ladon.LadonZeroFree | src/ladon.c:137-153 | The header text holds no terminator before its end |
| Decimal.ReadText | src/ladon.c:108-112 | A printed integer followed by anything but a digit reads back, and reading stops where the text ends |
| Decimal.TextLength | src/ladon.c:108-112 | A 64-bit value prints in at most 20 characters, a 32-bit value in at most 11 |
| Protobuf.StandardReading | src/protobuf.c:4-18 | A standard decoder returns the value if its leading base-128 digits are not 1,0, with the standard encoding; otherwise the value minus the leading digit's weight, from an encoding one byte shorter |
| Protobuf.QuirkReading | src/protobuf.c:4-18 | A decoder that reads a final zero byte as 128 returns every value but 128, which reads as 0 |
| Protobuf.WriterInjective | src/protobuf.c:4-18 | Two values are written alike if and only if they are equal or are 0 and 128 |
| Protobuf.VarintLength | src/protobuf.c:4-18 | At most five bytes are written |
| Protobuf.WriteVarint | src/protobuf.c:4-18 | The shifting loop writes the specified bytes at the position, leaves the rest of the buffer alone and returns the new position |
| Protobuf.ParseSerialized | src/protobuf.c:25-41 | For either kind of reader a field list is recovered, values modulo 2^32, if and only if every written integer is one that reader gets back |
| Protobuf.KeyTells | src/protobuf.c:29 | The key of every field tells the low three bits of its kind and the low 61 bits of its number |
| Protobuf.ReadEncoded | src/protobuf.c:28-38 | One field is read back exactly when its integers are safe, and otherwise never as itself |
| Protobuf.ReadIsSafe | src/protobuf.c:25-41 | If every field is safe or is read, at its place, as it was written, then all are safe: a message with unsafe fields is never read as if it had none |
| Protobuf.PbSerialize | src/protobuf.c:25-41 | The loop returns the length of the concatenated field encodings and leaves them in the buffer whenever they fit |
| Protobuf.InBoundsWhole | src/protobuf.c:25-41 | A buffer that holds the whole message holds every header written on the way |
| Protobuf.SerializedLength | src/protobuf.c:25-41 | At most ten bytes for each field besides its data |
| UrlEncode.UnquoteQuote | src/url_encode.c:15-67 | Unquoting undoes quoting for every byte string |
| UrlEncode.QuotePlain | src/url_encode.c:15-36 | Quoted text holds no separator, blank or terminator and is at most three times as long |
| UrlEncode.QuotedByte | src/url_encode.c:9-33 | Letters, digits and -._~ (section 2.3 of RFC 3986) stand for themselves, a blank is a plus sign, and every other byte is a percent sign with two capital digits that say its number |
| UrlEncode.QuoteJoined | src/url_encode.c:15-36 | Bytes are quoted one by one: quoting distributes over joining |
| UrlEncode.UnquotedFirst | src/url_encode.c:38-67 | A plus sign is read as a blank, a percent sign with two digits of either case as the byte they say, and everything else as itself |
| UrlEncode.ParseEncoded | src/url_encode.c:69-151 | Parsing an encoded list keeps exactly each key's first non-empty value, in order |
| UrlEncode.EncodeParamsInjective | src/url_encode.c:69-101 | Different lists of pairs never share a query string |
| UrlEncode.TokensOfEncoded | src/url_encode.c:112-147 | The tokens of an encoded list are exactly the encoded pairs, in order |
| UrlEncode.TokensJoined | src/url_encode.c:112-147 | Splitting at separators distributes over joining with one |
| UrlEncode.KeysGiven | src/url_encode.c:126-136 | A key is already taken exactly when an earlier pair gives it a non-empty value |
| UrlEncode.EncodedZeroFree | src/url_encode.c:69-101 | The query string is a C string |
| UrlEncode.QuotePlusString | src/url_encode.c:15-36 | The loop fills the buffer of three bytes for each byte plus one with the quoted text and its terminator |
| UrlEncode.UnquotePlusString | src/url_encode.c:38-67 | The loop with its three-character steps fills the buffer with the unquoted text and its terminator |
| UrlEncode.Reserve | src/url_encode.c:84-88 | The doubling loop leaves room for the bytes needed and a terminator and keeps what was written |
| UrlEncode.AppendPair | src/url_encode.c:80-98 | One turn appends separator and quoted pair to the text in the buffer |
| UrlEncode.UrlEncodeParams | src/url_encode.c:69-101 | However often the buffer grows, it ends up holding the query string and its terminator |
| UrlEncode.NextTokenFirst | src/url_encode.c:112-147 | Repeated strtok_r calls deliver the tokens of the text one after the other |
| UrlEncode.ParseToken | src/url_encode.c:114-144 | One turn of the tokeniser loop: dropped without a value or with a key already taken, appended otherwise |
| UrlEncode.ParseQueryParams | src/url_encode.c:103-151 | The tokeniser loop with its growing array returns the specified list; NULL for the empty string |
| Sm3.RoundsInverse | src/sm3.c:71-87 | For every expanded block the sixty-four rounds are a permutation of the eight-word state with an explicit two-sided inverse |
| Sm3.P0FourTimes | src/sm3.c:36-38 | P0 applied four times is the identity on all words |
| Sm3.P1FourTimes | src/sm3.c:40-42 | P1 applied four times is the identity on all words |
| Sm3.Majority | src/sm3.c:26-29 | From round 16 on ff is the bitwise majority: the common bit where x and y agree, z elsewhere |
| Sm3.Choice | src/sm3.c:31-34 | From round 16 on gg is the bitwise choice between y and z by x |
| Sm3.WindowRecoversBlock | src/sm3.c:60-66 | Any sixteen consecutive expanded words, run backwards, give the message block |
| Sm3.WindowDeterminesWords | src/sm3.c:60-66 | Blocks that agree on sixteen consecutive expanded words are equal, with all sixty-eight words |
| Sm3.FeedCancels | src/sm3.c:89-90 | For a fixed chaining value different final states give different results |
| Sm3.PadIsShortest | src/sm3.c:96-112 | The padded message is the smallest multiple of 64 bytes that holds message, 0x80 and length (section 5.2 of GB/T 32905-2016) |
| Sm3.ZeroCountLeast | src/sm3.c:97-101 | The zero bytes are the fewest that leave room for the length |
| Sm3.LengthField | src/sm3.c:109-112 | The last eight bytes are the bit length, big-endian |
| Sm3.PadInjective | src/sm3.c:96-112 | Different messages below 2^61 bytes are padded differently |
| Sm3.LengthStartIs | src/sm3.c:96-101 | The reserve and range arithmetic gives the position after message, 0x80 and the fewest zeros |
| Sm3.BuildPadded | src/sm3.c:96-112 | Every write stays in the allocation and the buffer ends up holding the padded message |
| Sm3.ExpandBlock | src/sm3.c:60-66 | Filling the word array in place yields the recursively specified expansion |
| Sm3.RunRounds | src/sm3.c:71-87 | The loop over eight locals is the chain of rounds that the worked example follows state by state (Sm3Example.AbcDigest) |
| Sm3.Cf | src/sm3.c:56-91 | One call replaces the chaining value in the array by the compression of it and the block (section 5.3), which meets the worked example |
| Sm3.Sm3Hash | src/sm3.c:93-127 | For every length within int range the buffer holds the digest: the fold of the compression function over the padded blocks, which meets the worked example (Sm3Example.AbcDigest) |
| Sm3Example.AbcDigest | src/sm3.c:56-127 | The digest of "abc" is the 32 bytes of example A.1 of GB/T 32905-2016, through every expanded word and the state after each of the 64 rounds |
| Gorgon.ScrambleInverse | src/gorgon.c:195-202 | The in-place circular update is a bijection, undone by running the indices down |
| Gorgon.ScrambledIsClosedForm | src/gorgon.c:195-202 | Output i below 19 depends only on inputs i and i+1; output 19 on inputs 19, 0 and 1, since it reads an overwritten cell |
| Gorgon.MixInverse | src/gorgon.c:196-201 | One cell is recovered from its new value and its neighbour |
| Gorgon.NibbleSwapTwice | src/gorgon.c:8-10 | Swapping nibbles twice is the identity |
| Gorgon.BitReverseTwice | src/gorgon.c:12-17 | Reversing bits twice is the identity |
| Gorgon.MixBit | src/gorgon.c:196-201 | Bit i of a mixed cell is the sum of bit 7-i of the neighbour and bit 7-i of the cell with its halves swapped, inverted except in bits 2 and 4 |
| Gorgon.XorByteBit | src/gorgon.c:192-201 | A bit of the exclusive or is set where exactly one of the two bits is |
| Gorgon.Scramble | src/gorgon.c:195-202 | The loop over the array computes the specified steps |
| Gorgon.MaskInto | src/gorgon.c:184-194 | The loop masks the twenty bytes with the key |
| Gorgon.MaskedTwice | src/gorgon.c:192-194 | Masking twice is the identity |
| Gorgon.TimestampDetour | src/gorgon.c:82-87 | For every timestamp the %08x text has eight digits and decodes to the four big-endian bytes of the value modulo 2^32, the bytes version 2 writes by shifts |
| Gorgon.ShiftsAreBytes | src/gorgon.c:178-182 | The four shifts are the big-endian bytes |
| Gorgon.ValuesRead | src/gorgon.c:184-247 | Unscrambling, unmasking and decoding give back the twenty bytes behind a value of each of the three versions |
| Gorgon.LayoutRead | src/gorgon.c:140-182 | The twenty bytes tell three digest prefixes (zeros for an empty text), the version mark and the timestamp modulo 2^32 |
| Gorgon.ValuesStart | src/gorgon.c:89-122 | The three prefixes character by character, 52 characters in all, and in version 1 one random byte, the high half of the other and two zero bytes |
| GorgonExample.Vector007 | src/gorgon.c:135-233 | For every MD5 with the digests that testdata/vector_007.json rests on, version 2 gives the X-Gorgon that the vector records |
| Gorgon.TicketsRead | src/gorgon.c:225-230 | Both time headers read back, the ticket as the time in milliseconds |
| Gorgon.GorgonV1 | src/gorgon.c:38-133 | Digest detours, layout and string building compute the specified version 1 result |
| Gorgon.GorgonV2 | src/gorgon.c:135-233 | Layout, mask, in-place scramble and string building compute the specified version 2 result |
| Gorgon.GorgonV3 | src/gorgon.c:235-249 | Rewriting the twelve-character prefix of version 2 gives the specified version 3 result |
| CryptoHelpers.HexDecodeText | src/crypto_helpers.c:52-75 | Decoding undoes hexadecimal encoding for every byte string |
| CryptoHelpers.HexDecodeUpper | src/crypto_helpers.c:21-75 | Decoding gives the same bytes for upper-case and lower-case digits |
| CryptoHelpers.HexTextLower | src/crypto_helpers.c:52-58 | Hexadecimal text has the digits 0-9a-f |
| CryptoHelpers.StubDigits | src/signer.c:159-165 | Raised digest text has the digits 0-9A-F |
| CryptoHelpers.NibbleOfOther | src/crypto_helpers.c:21-26 | Any other character is decoded as the digit 0 |
| CryptoHelpers.DigestDetour | src/crypto_helpers.c:35-87 | The first four digest bytes survive the detour through digest text |
| CryptoHelpers.Le64ReadBytes | src/crypto_helpers.c:126-147 | A word written little-endian is read back |
| CryptoHelpers.Le64BytesRead | src/crypto_helpers.c:126-147 | Eight bytes read as a word are written back unchanged |
| CryptoHelpers.Le64Write | src/crypto_helpers.c:137-147 | Exactly eight bytes of the buffer change, to the word's little-endian bytes |
| CryptoHelpers.BytesToHex | src/crypto_helpers.c:52-58 | The loop leaves the hexadecimal text and its terminator in the buffer |
| CryptoHelpers.HexDecodeString | src/crypto_helpers.c:66-75 | The two-step loop decodes every pair of digits |
| CryptoHelpers.FirstDigestBytes | src/crypto_helpers.c:77-87 | The loop decodes the first n pairs of digits |
| JsonText.ParseText | src/mini_json.c:13-188 | For every layout the parser reads, with any blanks, raw bytes, short escapes, four characters after \u and missing numbers, parsing its text followed by anything returns its tree and stops exactly where the text ends, if and only if the value cannot go on there |
| JsonGrammar.Accepted | src/mini_json.c:13-188 | The parser accepts a text with a given tree and rest if and only if some layout, spelled with literal characters, spells that text and stands for that tree: an exact grammar of what is accepted, missing values and strtol's readings included |
| JsonGrammar.Unambiguous | src/mini_json.c:13-188 | No text has two layouts |
| JsonStandard.StandardAccepted | src/mini_json.c:13-188 | Every text of RFC 8259, spelled with the standard's own blanks, numbers, characters and escapes, is accepted with its tree and up to its end; a number may be followed by nothing, a blank, a comma or a closing bracket |
| JsonStandard.DocIsValid | src/mini_json.c:13-188 | Every standard layout is one of the layouts the parser reads, and no value is missing |
| JsonStandard.NumberChars | src/mini_json.c:155-158 | The characters taken for a number are the digits, signs, the point and the letter e in either case, and no others |
| JsonStandard.StandardExactly | src/mini_json.c:13-188 | An accepted text is RFC 8259 (sections 2 to 7) exactly when its one layout is: no other blanks, no raw control characters, four hexadecimal digits after \u, numbers of the standard form |
| JsonStandard.StandardEscape | src/mini_json.c:119-134 | A standard \u escape is stored as the UTF-8 of its code point, which decodes to it if and only if it is no surrogate and holds no zero byte if and only if it is not \u0000 |
| JsonStandard.StandardString | src/mini_json.c:96-149 | A standard string is stored whole, rather than cut at a zero byte, if and only if it does not escape a zero |
| JsonText.PrintThenParse | src/mini_json.c:151-188 | Every tree of zero-free strings and lexemes of 1 to 127 number characters is read back from its printed text, if and only if a number is not followed by a number character |
| JsonText.ShortTable | src/mini_json.c:110-118 | A letter stands for a byte exactly when section 7 of RFC 8259 writes the byte with that letter |
| JsonText.ParsePrinted | src/mini_json.c:164-188 | The inductive form, with the rest of the input as a parameter (grammar of RFC 8259) |
| JsonText.ParsePrintedItems | src/mini_json.c:80-93 | Items with any blanks around the commas are read in order up to the bracket |
| JsonText.ParsePrintedMembers | src/mini_json.c:45-67 | Members with any blanks around colons and commas are read in order up to the brace |
| JsonText.ParseStringText | src/mini_json.c:96-149 | A string literal reads as the bytes its units stand for, up to the first zero, and reading stops after the quote |
| MiniJson.StrtolOfDigits | src/mini_json.c:120-121 | Four hexadecimal digits of either case are read as the number they write |
| MiniJson.StrtolText | src/mini_json.c:120-121 | Every form strtol reads in base 16: blanks, a sign, 0x before at least one digit, digits of either case, up to anything else |
| MiniJson.StoredNegative | src/mini_json.c:121-124 | A negative number is stored as the one byte that adds up to a multiple of 256 with it |
| MiniJson.SpaceIsBlank | src/mini_json.c:13-15 | isspace accepts the space and the five characters from tab to carriage return, and no others |
| MiniJson.Utf8IsStandard | src/mini_json.c:123-132 | The stored bytes are the UTF-8 of the code point (sections 3 and 4 of RFC 3629) if and only if it is no surrogate |
| MiniJson.EmptyNumber | src/mini_json.c:151-162 | Where no value starts, and only there, a number without characters is read and nothing is consumed |
| JsonText.MissingItem | src/mini_json.c:80-93 | An item may be missing before a comma: such arrays are accepted, unlike in RFC 8259 |
| JsonText.MissingLastItem | src/mini_json.c:80-93 | An item may be missing before the closing bracket |
| MiniJson.NodesArePaidFor | src/mini_json.c:35-188 | A tree read has at most one node more than the characters consumed for it, so numbers without characters cannot make the parser build without end |
| MiniJson.ParseValue | src/mini_json.c:164-188 | The position never moves back and every value but a number advances it |
| MiniJson.ParseItems | src/mini_json.c:70-94 | The items of an array always advance the position |
| MiniJson.ParseMembers | src/mini_json.c:35-68 | The members of an object always advance the position |
| JsonParser.JsonParse | src/mini_json.c:190-195 | The parser object returns what the specification reads from the start of the text, or stops with its error; JsonGrammar.Accepted and JsonStandard.StandardAccepted say what that is |
| JsonParser.JsonGet | src/mini_json.c:222-230 | The value of the first member with the key; none exactly when no member has it or the value is no object |
| JsonParser.Parser.ReadValue | src/mini_json.c:164-188 | From any position the method agrees with the specification on value, error and new position; what is left and the rank of the call decrease |
| JsonParser.Parser.ReadArray | src/mini_json.c:70-79 | The same for arrays |
| JsonParser.Parser.ReadItems | src/mini_json.c:76-93 | The loop with its doubling item array collects exactly the specified items |
| JsonParser.Parser.ReadItemTurn | src/mini_json.c:81-93 | One turn: an item is appended, doubling a full array first, and the comma or bracket after it tells whether to go on |
| JsonParser.Parser.ReadObject | src/mini_json.c:35-44 | The same for objects |
| JsonParser.Parser.ReadMembers | src/mini_json.c:41-67 | The loop with its doubling member array collects exactly the specified members |
| JsonParser.Parser.ReadMemberTurn | src/mini_json.c:46-66 | One turn: a member is appended, doubling a full array first, and the comma or brace after it tells whether to go on |
| JsonParser.Parser.ReadMember | src/mini_json.c:46-52 | One key, colon and value |
| JsonParser.Parser.ReadString | src/mini_json.c:96-98 | A string literal or the error for a missing quote |
| JsonParser.Parser.ReadChars | src/mini_json.c:99-148 | The loop over characters returns what a C string in the buffer holds; the buffer's length stays below its capacity through every growth branch |
| JsonParser.Parser.ReadUnit | src/mini_json.c:104-145 | One turn: a raw byte, a short escape or a \u escape appends exactly its bytes |
| JsonParser.Parser.StoreCode | src/mini_json.c:121-132 | Growing first, the branches by size store one to three bytes |
| JsonParser.Parser.ReadNumber | src/mini_json.c:151-161 | The lexeme, cut to 127 characters, with the position behind all its characters |
| JsonParser.Parser.SkipBlanks | src/mini_json.c:13-15 | The position moves to the first character that is no blank of isspace (MiniJson.SpaceIsBlank) |
| JsonParser.Parser.ExpectWord | src/mini_json.c:26-33 | A literal word advances by its length; anything else stops the program |

## Left out

- MD5 is an arbitrary function to 16 bytes, and AES-128-CBC an arbitrary function with a given left inverse: both are calls into OpenSSL.
- Random bytes, the clock and the default device identifier are parameters; so are the option defaults, which the caller fills in.
- NULL arguments, allocation failure, freeing and ownership: no functional content.
- The public wrappers around modelled functions, the HTTP client, the examples and the command-line output.
- Cryptographic strength, and the recorded test vectors besides one X-Gorgon, whose digests and ciphertexts are OpenSSL's.
- Protobuf.WriteVarint: the mask by 0x7F, the shift by 7 and the mask by 0xFFFFFFFF are written as remainder and quotient on natural numbers.
- UrlEncode.ParseQueryParams: strtok_r's cutting of a private copy is modelled as slices of the text; a name that decodes to a zero byte ends there, as in C.
- Signer.ParamsFromUrl: the same for its private copy.
- Protobuf.PbSerialize: requires that all but the bytes of a final string lie inside the buffer, because the writer checks its bounds only for strings.
- ArgusMessage.ArgusGetSign: requires a message of at most 4096 bytes (ArgusMessage.ShortRequestFits gives a bound on the inputs), whole pairs of hexadecimal digits in the stub, and hashed texts that the int arithmetic of sm3_hash can hold (Sm3.Hashable).
- Signer.TtSignRequest: for a known version the query string must be one that the int arithmetic of sm3_hash can hold (Sm3.Hashable).
- CryptoHelpers.HexDecodeString: requires an even length; for an odd one the code writes one byte beyond its allocation.
- Gorgon.GorgonV1: requires a timestamp that does not overflow when multiplied by 1000, as do the other versions.
- Sm3.Sm3Hash: requires a length within int range, where the code's conversions are defined.
- JsonParser.JsonParse: numbers stay lexemes instead of the doubles atof makes of them; a truncated \u escape, where the code reads past its input, is the outcome Overread.
- JsonParser.Parser.ReadNumber: keeps the cut lexeme and omits the double that atof makes of it.
- JsonText.ParseText: halves of surrogate pairs are stored one by one, as in the code, which is not UTF-8 (MiniJson.Utf8IsStandard says when it is).
- JSON accessors besides json_get, which only select a member and convert it.
