/** The quiz player of components/QuizPlayer.tsx: the per-quiz answer state,
    the score, and the narration flags with the handle of the playing source
    node. Each event handler is a method; `handlePlayAudio` is split at its
    await into `BeginNarration` (the click) and `CompleteNarration` (the
    synthesis result arriving). There is no request epoch: a result that
    arrives after the question changed is played all the same. */
module Quiz {
  import opened Types
  import AudioService
  import Base64

  // ---------------------------------------------------------------------
  // The narration text.

  function DigitChar(d: nat): (c: char)
    requires d < 10
    ensures '0' <= c <= '9'
  {
    ('0' as int + d) as char
  }

  /** The decimal text of a number, as JavaScript prints an integer. */
  function NatToString(n: nat): (s: string)
    ensures |s| > 0
    ensures forall i :: 0 <= i < |s| ==> '0' <= s[i] <= '9'
    ensures s[0] == '0' ==> n == 0
    decreases n
  {
    if n < 10 then [DigitChar(n)] else NatToString(n / 10) + [DigitChar(n % 10)]
  }

  /** The number a string of decimal digits denotes. */
  function DigitsValue(s: string): nat
    requires forall i :: 0 <= i < |s| ==> '0' <= s[i] <= '9'
  {
    if s == [] then 0 else DigitsValue(s[..|s| - 1]) * 10 + (s[|s| - 1] as int - '0' as int)
  }

  /** The decimal text of a number reads back as that number. */
  lemma {:induction false} NatToStringRoundTrip(n: nat)
    ensures DigitsValue(NatToString(n)) == n
    decreases n
  {
    if n >= 10 {
      NatToStringRoundTrip(n / 10);
      var s := NatToString(n);
      assert s[..|s| - 1] == NatToString(n / 10);
    }
  }

  /** `Array.prototype.join`: the items with the separator between consecutive
      ones, so all the items plus one separator per adjacent pair. */
  function Join(items: seq<string>, sep: string): (r: string)
    ensures |items| == 0 ==> r == ""
    ensures |items| > 0 ==> items[0] <= r
  {
    if |items| == 0 then ""
    else if |items| == 1 then items[0]
    else items[0] + sep + Join(items[1..], sep)
  }

  /** Joining one more item appends the separator and the item. */
  lemma {:induction false} JoinSnoc(items: seq<string>, item: string, sep: string)
    requires |items| > 0
    ensures Join(items + [item], sep) == Join(items, sep) + sep + item
  {
    if |items| > 1 {
      JoinSnoc(items[1..], item, sep);
      assert (items + [item])[1..] == items[1..] + [item];
    }
  }

  /** The length of a join: all the items plus one separator between each pair. */
  lemma {:induction false} JoinLength(items: seq<string>, sep: string)
    requires |items| > 0
    ensures |Join(items, sep)| == SumLengths(items) + (|items| - 1) * |sep|
  {
    if |items| > 1 {
      JoinLength(items[1..], sep);
    }
  }

  /** The total length of the items. */
  function SumLengths(items: seq<string>): nat
  {
    if items == [] then 0 else |items[0]| + SumLengths(items[1..])
  }

  /** The options numbered from 1: "1. first", "2. second", ... */
  function NumberedOptions(options: seq<string>): (items: seq<string>)
    ensures |items| == |options|
    ensures forall i :: 0 <= i < |options| ==> items[i] == NumberedOption(i, options[i])
  {
    seq(|options|, i requires 0 <= i < |options| => NumberedOption(i, options[i]))
  }

  /** The option at 0-based position i, numbered from 1: "{i+1}. {option}". */
  function NumberedOption(i: nat, option: string): string
  {
    NatToString(i + 1) + ". " + option
  }

  /** The text sent for narration of the question at `index`:
      "Question {index+1}. {text}. Options: 1. {o1}. 2. {o2}. ...". */
  function NarrationText(index: nat, q: Question): (r: string)
    ensures NarrationHead(index, q) <= r
    ensures |r| > |NarrationHead(index, q)| && r[|r| - 1] == '.'
  {
    NarrationHead(index, q) + Join(NumberedOptions(q.options), ". ") + "."
  }

  /** The part of the narration before the option list. */
  function NarrationHead(index: nat, q: Question): string
  {
    "Question " + NatToString(index + 1) + ". " + q.text + ". Options: "
  }

  /** Numbering one more option appends its item, numbered after the others. */
  lemma NumberedOptionsSnoc(options: seq<string>, option: string)
    ensures NumberedOptions(options + [option])
         == NumberedOptions(options) + [NumberedOption(|options|, option)]
  {
    var longer, shorter := NumberedOptions(options + [option]), NumberedOptions(options);
    var expected := shorter + [NumberedOption(|options|, option)];
    forall i | 0 <= i < |longer| ensures longer[i] == expected[i] {
      if i < |options| {
        assert (options + [option])[i] == options[i];
      }
    }
  }

  /** With at least one option, one more option adds ". {n}. {option}" just
      before the final ".", n being its 1-based number. */
  lemma NarrationOneMoreOption(index: nat, q: Question, option: string)
    requires |q.options| > 0
    ensures (var t := NarrationText(index, q);
             NarrationText(index, q.(options := q.options + [option]))
             == t[..|t| - 1] + ". " + NatToString(|q.options| + 1) + ". " + option + ".")
  {
    var t := NarrationText(index, q);
    var head := NarrationHead(index, q);
    var joined := Join(NumberedOptions(q.options), ". ");
    var item := NumberedOption(|q.options|, option);
    var longer := q.(options := q.options + [option]);
    assert t == (head + joined) + ".";
    assert t[..|t| - 1] == head + joined;
    assert Join(NumberedOptions(longer.options), ". ") == joined + ". " + item by {
      NumberedOptionsSnoc(q.options, option);
      JoinSnoc(NumberedOptions(q.options), item, ". ");
    }
    assert NarrationHead(index, longer) == head;
  }

  lemma JoinFour(a: string, b: string, c: string, d: string, sep: string)
    ensures Join([a, b, c, d], sep) == a + sep + (b + sep + (c + sep + d))
  {
    assert Join([d], sep) == d;
    assert Join([c, d], sep) == c + sep + d by {
      assert [c, d][1..] == [d];
    }
    assert Join([b, c, d], sep) == b + sep + (c + sep + d) by {
      assert [b, c, d][1..] == [c, d];
    }
    assert [a, b, c, d][1..] == [b, c, d];
  }

  /** Four options joined: each numbered 1 to 4, separated by ". ". */
  lemma JoinNumberedFour(o: seq<string>)
    requires |o| == 4
    ensures Join(NumberedOptions(o), ". ")
         == "1. " + o[0] + (". 2. " + o[1] + (". 3. " + o[2] + (". 4. " + o[3])))
  {
    assert NatToString(1) == "1" && NatToString(2) == "2" && NatToString(3) == "3" && NatToString(4) == "4";
    var items := NumberedOptions(o);
    assert items[0] == "1. " + o[0] by { assert items[0] == "1" + ". " + o[0]; }
    assert items[1] == "2. " + o[1] by { assert items[1] == "2" + ". " + o[1]; }
    assert items[2] == "3. " + o[2] by { assert items[2] == "3" + ". " + o[2]; }
    assert items[3] == "4. " + o[3] by { assert items[3] == "4" + ". " + o[3]; }
    assert items == [items[0], items[1], items[2], items[3]];
    JoinFour(items[0], items[1], items[2], items[3], ". ");
    assert ". " + ("4. " + o[3]) == ". 4. " + o[3];
    assert ". " + ("3. " + o[2]) + (". 4. " + o[3]) == ". 3. " + o[2] + (". 4. " + o[3]);
    assert ". " + ("2. " + o[1]) + (". 3. " + o[2] + (". 4. " + o[3]))
        == ". 2. " + o[1] + (". 3. " + o[2] + (". 4. " + o[3]));
  }

  /** For the usual four options the narration reads each one, numbered 1 to 4,
      after the 1-based question number and the question text. */
  lemma NarrationOfFourOptions(index: nat, q: Question)
    requires |q.options| == 4
    ensures NarrationText(index, q)
         == "Question " + NatToString(index + 1) + ". " + q.text + ". Options: "
            + ("1. " + q.options[0] + (". 2. " + q.options[1] + (". 3. " + q.options[2]
            + (". 4. " + q.options[3])))) + "."
  {
    JoinNumberedFour(q.options);
  }

  /** A single option is read with its number 1. */
  lemma NarrationOfOneOption(index: nat, q: Question)
    requires |q.options| == 1
    ensures NarrationText(index, q) == NarrationHead(index, q) + "1. " + q.options[0] + "."
  {
    assert NatToString(1) == "1";
    assert NumberedOptions(q.options) == [NumberedOption(0, q.options[0])];
  }

  /** With no options the list part is empty. */
  lemma NarrationOfNoOptions(index: nat, q: Question)
    requires q.options == []
    ensures NarrationText(index, q) == "Question " + NatToString(index + 1) + ". " + q.text + ". Options: ."
  {
  }

  // ---------------------------------------------------------------------
  // The player.

  /** An `AudioBufferSourceNode` returned by the playback helper: an opaque
      identity and the buffer it plays. */
  datatype SourceNode = SourceNode(id: nat, buffer: AudioService.AudioBuffer)

  class QuizPlayer {
    /** The questions the app passed in; never changed by the player. */
    const questions: seq<Question>

    var currentIndex: nat
    var selectedOption: Option<nat>
    var isAnswered: bool
    var score: nat
    var isPlayingAudio: bool
    var isLoadingAudio: bool
    /** The `currentAudioSource` ref. */
    var currentAudioSource: Option<SourceNode>

    /** The text of the synthesis request still awaiting its result, if any. */
    var pendingNarration: Option<string>
    /** Every source node on which `stop()` was called, in order. */
    var stoppedSources: seq<SourceNode>
    /** Every score passed to the `onFinish` callback, in order. */
    var finishCalls: seq<nat>

    /** The number of questions answered so far. */
    function Answered(): nat
      reads this
    {
      currentIndex + if isAnswered then 1 else 0
    }

    ghost predicate Valid()
      reads this
    {
      && 0 < |questions|
      && currentIndex < |questions|
      && (isAnswered <==> selectedOption.Some?)
      && (selectedOption.Some? ==> selectedOption.value < |questions[currentIndex].options|)
      && score <= Answered() <= |questions|
      && (isPlayingAudio ==> currentAudioSource.Some?)
      && (pendingNarration.Some? ==> isLoadingAudio && !isPlayingAudio)
      && (finishCalls != [] ==> isAnswered && currentIndex == |questions| - 1)
      && (forall k :: 0 <= k < |finishCalls| ==> finishCalls[k] == score)
    }

    /** A fresh player: first question, nothing selected, score 0, silent. */
    constructor (questions: seq<Question>)
      requires |questions| > 0
      ensures Valid()
      ensures this.questions == questions
      ensures currentIndex == 0 && selectedOption == None && !isAnswered && score == 0
      ensures !isPlayingAudio && !isLoadingAudio && currentAudioSource == None
      ensures pendingNarration == None && stoppedSources == [] && finishCalls == []
    {
      this.questions := questions;
      currentIndex := 0;
      selectedOption := None;
      isAnswered := false;
      score := 0;
      isPlayingAudio := false;
      isLoadingAudio := false;
      currentAudioSource := None;
      pendingNarration := None;
      stoppedSources := [];
      finishCalls := [];
    }

    /** `handleOptionSelect`: ignored once the question is answered; otherwise
        records the choice and adds 1 to the score iff it is the correct index. */
    method HandleOptionSelect(index: nat)
      requires Valid()
      requires index < |questions[currentIndex].options|
      modifies this`selectedOption, this`isAnswered, this`score
      ensures Valid()
      ensures old(isAnswered) ==> selectedOption == old(selectedOption) && isAnswered && score == old(score)
      ensures !old(isAnswered) ==> selectedOption == Some(index) && isAnswered
      ensures !old(isAnswered) ==>
                score == old(score) + if index == questions[currentIndex].correctIndex then 1 else 0
    {
      if isAnswered {
        return;
      }
      selectedOption := Some(index);
      isAnswered := true;
      if index == questions[currentIndex].correctIndex {
        score := score + 1;
      }
    }

    /** `stopAudio`: stops and forgets the current source node, if any, and
        clears the playing flag; the loading flag is left alone. */
    method StopAudio()
      requires Valid()
      modifies this`currentAudioSource, this`stoppedSources, this`isPlayingAudio
      ensures Valid()
      ensures currentAudioSource == None && !isPlayingAudio
      ensures stoppedSources == old(stoppedSources) + StoppedBy(old(currentAudioSource))
    {
      if currentAudioSource.Some? {
        stoppedSources := stoppedSources + [currentAudioSource.value];
        currentAudioSource := None;
      }
      isPlayingAudio := false;
    }

    /** `handleNext`: stops narration first; on a question before the last it
        moves to the next one and clears the answer, keeping the score; on the
        last it stays put and reports the score to `onFinish`, twice. */
    method HandleNext()
      requires Valid()
      requires isAnswered
      modifies this`currentIndex, this`selectedOption, this`isAnswered, this`finishCalls
      modifies this`currentAudioSource, this`stoppedSources, this`isPlayingAudio
      ensures Valid()
      ensures currentAudioSource == None && !isPlayingAudio
      ensures stoppedSources == old(stoppedSources) + StoppedBy(old(currentAudioSource))
      ensures old(currentIndex) < |questions| - 1 ==>
                && currentIndex == old(currentIndex) + 1
                && selectedOption == None && !isAnswered
                && finishCalls == old(finishCalls)
      ensures old(currentIndex) == |questions| - 1 ==>
                && currentIndex == old(currentIndex)
                && selectedOption == old(selectedOption) && isAnswered
                && finishCalls == old(finishCalls) + [score, score]
    {
      StopAudio();
      if currentIndex < |questions| - 1 {
        currentIndex := currentIndex + 1;
        selectedOption := None;
        isAnswered := false;
        // The effect keyed on the index runs its cleanup, which stops again.
        StopAudio();
      } else {
        finishCalls := finishCalls + [score];
        finishCalls := finishCalls + [score];
      }
    }

    /** The click on the narration button up to the synthesis request: while
        playing it only stops; otherwise it sets the loading flag and requests
        the narration text of the current question. */
    method BeginNarration() returns (request: Option<string>)
      requires Valid()
      requires !isLoadingAudio
      modifies this`currentAudioSource, this`stoppedSources, this`isPlayingAudio
      modifies this`isLoadingAudio, this`pendingNarration
      ensures Valid()
      ensures old(isPlayingAudio) ==>
                && request == None && pendingNarration == None && !isLoadingAudio
                && currentAudioSource == None && !isPlayingAudio
                && stoppedSources == old(stoppedSources) + StoppedBy(old(currentAudioSource))
      ensures !old(isPlayingAudio) ==>
                && request == Some(NarrationText(currentIndex, questions[currentIndex]))
                && pendingNarration == request && isLoadingAudio && !isPlayingAudio
                && currentAudioSource == old(currentAudioSource) && stoppedSources == old(stoppedSources)
    {
      if isPlayingAudio {
        StopAudio();
        return None;
      }
      isLoadingAudio := true;
      var textToRead := NarrationText(currentIndex, questions[currentIndex]);
      pendingNarration := Some(textToRead);
      request := pendingNarration;
    }

    /** The synthesis result arriving: `base64Audio` is what the speech request
        resolved to and `nodeId` names the source node playback creates. No
        check is made that the question is still the one requested. A
        non-empty result that decodes starts playback; an absent or empty one
        clears the loading flag; one that fails to decode rejects the handler
        and leaves the loading flag set. */
    method CompleteNarration(base64Audio: Option<string>, nodeId: nat)
      requires Valid()
      requires pendingNarration.Some?
      modifies this`currentAudioSource, this`isPlayingAudio, this`isLoadingAudio, this`pendingNarration
      ensures Valid()
      ensures pendingNarration == None
      ensures !Truthy(base64Audio) ==>
                !isLoadingAudio && !isPlayingAudio && currentAudioSource == old(currentAudioSource)
      ensures Truthy(base64Audio) && AudioService.DecodedAudio(base64Audio.value, AudioService.DefaultSampleRate).Err? ==>
                isLoadingAudio && !isPlayingAudio && currentAudioSource == old(currentAudioSource)
      ensures Truthy(base64Audio) && AudioService.DecodedAudio(base64Audio.value, AudioService.DefaultSampleRate).Ok? ==>
                && !isLoadingAudio && isPlayingAudio
                && currentAudioSource == Some(SourceNode(nodeId,
                     AudioService.DecodedAudio(base64Audio.value, AudioService.DefaultSampleRate).value))
    {
      pendingNarration := None;
      if Truthy(base64Audio) {
        var buffer := AudioService.DecodeAudioData(base64Audio.value);
        if buffer.Err? {
          return;
        }
        isLoadingAudio := false;
        isPlayingAudio := true;
        currentAudioSource := Some(SourceNode(nodeId, buffer.value));
      } else {
        isLoadingAudio := false;
      }
    }

    /** The `onended` callback of a started source node: clears the playing
        flag, whichever node ended, and keeps the handle. */
    method PlaybackEnded()
      requires Valid()
      modifies this`isPlayingAudio
      ensures Valid()
      ensures !isPlayingAudio
    {
      isPlayingAudio := false;
    }
  }

  /** The nodes `stopAudio` stops for a given handle: the node, or none. */
  function StoppedBy(source: Option<SourceNode>): (stopped: seq<SourceNode>)
    ensures source.Some? ==> stopped == [source.value]
    ensures source.None? ==> stopped == []
  {
    if source.Some? then [source.value] else []
  }

  /** A narration requested on the first question whose audio arrives after the
      user moved on: the first question's text is played on the second question. */
  method StaleNarrationScenario(q0: Question, q1: Question)
    returns (playing: bool, index: nat, requested: Option<string>)
    requires |q0.options| > 0
    ensures playing && index == 1
    ensures requested == Some(NarrationText(0, q0))
  {
    var samples: seq<AudioService.int16> := [0];
    var audio := Base64.Encode(AudioService.PcmBytes(samples));
    AudioService.DecodeRoundTrip(samples, AudioService.DefaultSampleRate);
    assert Truthy(Some(audio));
    assert AudioService.DecodedAudio(audio, AudioService.DefaultSampleRate).Ok?;

    var player := new QuizPlayer([q0, q1]);
    player.HandleOptionSelect(0);
    requested := player.BeginNarration();
    assert player.pendingNarration.Some? && player.currentIndex == 0;
    player.HandleNext();
    assert player.pendingNarration.Some? && player.currentIndex == 1;
    player.CompleteNarration(Some(audio), 1);
    playing, index := player.isPlayingAudio, player.currentIndex;
  }

  /** A synthesis result that `atob` rejects makes the handler reject after it
      set the loading flag: the flag stays set, on this question and, since
      `stopAudio` never clears it, on the next one too. */
  method UndecodableNarrationScenario(q0: Question, q1: Question)
    returns (loadingAfter: bool, loadingOnNext: bool)
    requires |q0.options| > 0
    ensures loadingAfter && loadingOnNext
  {
    var player := new QuizPlayer([q0, q1]);
    var requested := player.BeginNarration();
    assert Base64.StripAsciiWhitespace("A") == "A";
    player.CompleteNarration(Some("A"), 1);
    loadingAfter := player.isLoadingAudio;
    player.HandleOptionSelect(0);
    player.HandleNext();
    loadingOnNext := player.isLoadingAudio;
  }
}
