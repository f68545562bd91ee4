/**
 * The catalog of NCI opcodes. Only an opcode's name ever reaches the wire, so
 * each constructor is paired with the exact name the enumeration declares,
 * spelling included (NeplayGameWatch is sent as "NEPLAY_GAME_WATCH").
 */
module Commands {
  import opened Tokens

  datatype NciCommand =
    | Version
    | GetStatus
    | GetConfigParam
    | ShowMesg
    | SetShader
    | ReadCoreMemory
    | WriteCoreMemory
    | LoadStateSlot
    | PlayReplaySlot
    | MenuToggle
    | Quit
    | CloseContent
    | Reset
    | FastForward
    | FastForwardHold
    | Slowmotion
    | SlowmotionHold
    | Rewind
    | PauseToggle
    | Frameadvance
    | Mute
    | VolumeUp
    | VolumeDown
    | LoadState
    | SaveState
    | StateSlotPlus
    | StateSlotMinus
    | PlayReplay
    | RecordReplay
    | HaltReplay
    | ReplaySlotPlus
    | ReplaySlotMinus
    | DiskEjectToggle
    | DiskNext
    | DiskPrev
    | ShaderToggle
    | ShaderNext
    | ShaderPrev
    | CheatToggle
    | CheatIndexPlus
    | CheatIndexMinus
    | Screenshot
    | RecordingToggle
    | StreamingToggle
    | GrabMouseToggle
    | GameFocusToggle
    | FullscreenToggle
    | UiCompanionToggle
    | VrrRunloopToggle
    | RunaheadToggle
    | PreemptToggle
    | FpsToggle
    | StatisticsToggle
    | AiService
    | NetplayPingToggle
    | NetplayHostToggle
    | NeplayGameWatch
    | NetplayPlayerChat
    | NetplayFadeChatToggle
    | MenuUp
    | MenuDown
    | MenuLeft
    | MenuRight
    | MenuA
    | MenuB
    | OverlayNext
    | Osk

  /** The characters an opcode name is made of: uppercase letters and '_'. */
  predicate IsOpcodeName(s: string)
  {
    |s| > 0 && forall i :: 0 <= i < |s| ==> 'A' <= s[i] <= 'Z' || s[i] == '_'
  }

  /**
   * `command.value`: `auto()` numbers the members 1, 2, 3, ... in the order
   * they are declared.
   */
  function Value(command: NciCommand): (v: nat)
    ensures 1 <= v <= 67
  {
    match command
    case Version => 1
    case GetStatus => 2
    case GetConfigParam => 3
    case ShowMesg => 4
    case SetShader => 5
    case ReadCoreMemory => 6
    case WriteCoreMemory => 7
    case LoadStateSlot => 8
    case PlayReplaySlot => 9
    case MenuToggle => 10
    case Quit => 11
    case CloseContent => 12
    case Reset => 13
    case FastForward => 14
    case FastForwardHold => 15
    case Slowmotion => 16
    case SlowmotionHold => 17
    case Rewind => 18
    case PauseToggle => 19
    case Frameadvance => 20
    case Mute => 21
    case VolumeUp => 22
    case VolumeDown => 23
    case LoadState => 24
    case SaveState => 25
    case StateSlotPlus => 26
    case StateSlotMinus => 27
    case PlayReplay => 28
    case RecordReplay => 29
    case HaltReplay => 30
    case ReplaySlotPlus => 31
    case ReplaySlotMinus => 32
    case DiskEjectToggle => 33
    case DiskNext => 34
    case DiskPrev => 35
    case ShaderToggle => 36
    case ShaderNext => 37
    case ShaderPrev => 38
    case CheatToggle => 39
    case CheatIndexPlus => 40
    case CheatIndexMinus => 41
    case Screenshot => 42
    case RecordingToggle => 43
    case StreamingToggle => 44
    case GrabMouseToggle => 45
    case GameFocusToggle => 46
    case FullscreenToggle => 47
    case UiCompanionToggle => 48
    case VrrRunloopToggle => 49
    case RunaheadToggle => 50
    case PreemptToggle => 51
    case FpsToggle => 52
    case StatisticsToggle => 53
    case AiService => 54
    case NetplayPingToggle => 55
    case NetplayHostToggle => 56
    case NeplayGameWatch => 57
    case NetplayPlayerChat => 58
    case NetplayFadeChatToggle => 59
    case MenuUp => 60
    case MenuDown => 61
    case MenuLeft => 62
    case MenuRight => 63
    case MenuA => 64
    case MenuB => 65
    case OverlayNext => 66
    case Osk => 67
  }

  /** `command.name`: the name of the enumeration member. */
  function Name(command: NciCommand): string
  {
    NameOfValue(Value(command))
  }

  /** The member names indexed by value, four values to a block. */
  function NameOfValue(v: nat): string
    requires 1 <= v <= 67
  {
    if v <= 4 then NameBlock0(v)
    else if v <= 8 then NameBlock1(v)
    else if v <= 12 then NameBlock2(v)
    else if v <= 16 then NameBlock3(v)
    else if v <= 20 then NameBlock4(v)
    else if v <= 24 then NameBlock5(v)
    else if v <= 28 then NameBlock6(v)
    else if v <= 32 then NameBlock7(v)
    else if v <= 36 then NameBlock8(v)
    else if v <= 40 then NameBlock9(v)
    else if v <= 44 then NameBlock10(v)
    else if v <= 48 then NameBlock11(v)
    else if v <= 52 then NameBlock12(v)
    else if v <= 56 then NameBlock13(v)
    else if v <= 60 then NameBlock14(v)
    else if v <= 64 then NameBlock15(v)
    else NameBlock16(v)
  }

  function NameBlock0(v: nat): string
    requires 1 <= v <= 4
  {
    if v == 1 then "VERSION"
    else if v == 2 then "GET_STATUS"
    else if v == 3 then "GET_CONFIG_PARAM"
    else "SHOW_MESG"
  }

  function NameBlock1(v: nat): string
    requires 5 <= v <= 8
  {
    if v == 5 then "SET_SHADER"
    else if v == 6 then "READ_CORE_MEMORY"
    else if v == 7 then "WRITE_CORE_MEMORY"
    else "LOAD_STATE_SLOT"
  }

  function NameBlock2(v: nat): string
    requires 9 <= v <= 12
  {
    if v == 9 then "PLAY_REPLAY_SLOT"
    else if v == 10 then "MENU_TOGGLE"
    else if v == 11 then "QUIT"
    else "CLOSE_CONTENT"
  }

  function NameBlock3(v: nat): string
    requires 13 <= v <= 16
  {
    if v == 13 then "RESET"
    else if v == 14 then "FAST_FORWARD"
    else if v == 15 then "FAST_FORWARD_HOLD"
    else "SLOWMOTION"
  }

  function NameBlock4(v: nat): string
    requires 17 <= v <= 20
  {
    if v == 17 then "SLOWMOTION_HOLD"
    else if v == 18 then "REWIND"
    else if v == 19 then "PAUSE_TOGGLE"
    else "FRAMEADVANCE"
  }

  function NameBlock5(v: nat): string
    requires 21 <= v <= 24
  {
    if v == 21 then "MUTE"
    else if v == 22 then "VOLUME_UP"
    else if v == 23 then "VOLUME_DOWN"
    else "LOAD_STATE"
  }

  function NameBlock6(v: nat): string
    requires 25 <= v <= 28
  {
    if v == 25 then "SAVE_STATE"
    else if v == 26 then "STATE_SLOT_PLUS"
    else if v == 27 then "STATE_SLOT_MINUS"
    else "PLAY_REPLAY"
  }

  function NameBlock7(v: nat): string
    requires 29 <= v <= 32
  {
    if v == 29 then "RECORD_REPLAY"
    else if v == 30 then "HALT_REPLAY"
    else if v == 31 then "REPLAY_SLOT_PLUS"
    else "REPLAY_SLOT_MINUS"
  }

  function NameBlock8(v: nat): string
    requires 33 <= v <= 36
  {
    if v == 33 then "DISK_EJECT_TOGGLE"
    else if v == 34 then "DISK_NEXT"
    else if v == 35 then "DISK_PREV"
    else "SHADER_TOGGLE"
  }

  function NameBlock9(v: nat): string
    requires 37 <= v <= 40
  {
    if v == 37 then "SHADER_NEXT"
    else if v == 38 then "SHADER_PREV"
    else if v == 39 then "CHEAT_TOGGLE"
    else "CHEAT_INDEX_PLUS"
  }

  function NameBlock10(v: nat): string
    requires 41 <= v <= 44
  {
    if v == 41 then "CHEAT_INDEX_MINUS"
    else if v == 42 then "SCREENSHOT"
    else if v == 43 then "RECORDING_TOGGLE"
    else "STREAMING_TOGGLE"
  }

  function NameBlock11(v: nat): string
    requires 45 <= v <= 48
  {
    if v == 45 then "GRAB_MOUSE_TOGGLE"
    else if v == 46 then "GAME_FOCUS_TOGGLE"
    else if v == 47 then "FULLSCREEN_TOGGLE"
    else "UI_COMPANION_TOGGLE"
  }

  function NameBlock12(v: nat): string
    requires 49 <= v <= 52
  {
    if v == 49 then "VRR_RUNLOOP_TOGGLE"
    else if v == 50 then "RUNAHEAD_TOGGLE"
    else if v == 51 then "PREEMPT_TOGGLE"
    else "FPS_TOGGLE"
  }

  function NameBlock13(v: nat): string
    requires 53 <= v <= 56
  {
    if v == 53 then "STATISTICS_TOGGLE"
    else if v == 54 then "AI_SERVICE"
    else if v == 55 then "NETPLAY_PING_TOGGLE"
    else "NETPLAY_HOST_TOGGLE"
  }

  function NameBlock14(v: nat): string
    requires 57 <= v <= 60
  {
    if v == 57 then "NEPLAY_GAME_WATCH"
    else if v == 58 then "NETPLAY_PLAYER_CHAT"
    else if v == 59 then "NETPLAY_FADE_CHAT_TOGGLE"
    else "MENU_UP"
  }

  function NameBlock15(v: nat): string
    requires 61 <= v <= 64
  {
    if v == 61 then "MENU_DOWN"
    else if v == 62 then "MENU_LEFT"
    else if v == 63 then "MENU_RIGHT"
    else "MENU_A"
  }

  function NameBlock16(v: nat): string
    requires 65 <= v <= 67
  {
    if v == 65 then "MENU_B"
    else if v == 66 then "OVERLAY_NEXT"
    else "OSK"
  }

  lemma NameBlockIsOpcodeName0(v: nat)
    requires 1 <= v <= 4
    ensures IsOpcodeName(NameBlock0(v))
  {
    if v == 1 {
      assert NameBlock0(v) == "VERSION";
    } else if v == 2 {
      assert NameBlock0(v) == "GET_STATUS";
    } else if v == 3 {
      assert NameBlock0(v) == "GET_CONFIG_PARAM";
    }
  }

  lemma NameBlockIsOpcodeName1(v: nat)
    requires 5 <= v <= 8
    ensures IsOpcodeName(NameBlock1(v))
  {
    if v == 5 {
      assert NameBlock1(v) == "SET_SHADER";
    } else if v == 6 {
      assert NameBlock1(v) == "READ_CORE_MEMORY";
    } else if v == 7 {
      assert NameBlock1(v) == "WRITE_CORE_MEMORY";
    }
  }

  lemma NameBlockIsOpcodeName2(v: nat)
    requires 9 <= v <= 12
    ensures IsOpcodeName(NameBlock2(v))
  {
    if v == 9 {
      assert NameBlock2(v) == "PLAY_REPLAY_SLOT";
    } else if v == 10 {
      assert NameBlock2(v) == "MENU_TOGGLE";
    } else if v == 11 {
      assert NameBlock2(v) == "QUIT";
    }
  }

  lemma NameBlockIsOpcodeName3(v: nat)
    requires 13 <= v <= 16
    ensures IsOpcodeName(NameBlock3(v))
  {
    if v == 13 {
      assert NameBlock3(v) == "RESET";
    } else if v == 14 {
      assert NameBlock3(v) == "FAST_FORWARD";
    } else if v == 15 {
      assert NameBlock3(v) == "FAST_FORWARD_HOLD";
    }
  }

  lemma NameBlockIsOpcodeName4(v: nat)
    requires 17 <= v <= 20
    ensures IsOpcodeName(NameBlock4(v))
  {
    if v == 17 {
      assert NameBlock4(v) == "SLOWMOTION_HOLD";
    } else if v == 18 {
      assert NameBlock4(v) == "REWIND";
    } else if v == 19 {
      assert NameBlock4(v) == "PAUSE_TOGGLE";
    }
  }

  lemma NameBlockIsOpcodeName5(v: nat)
    requires 21 <= v <= 24
    ensures IsOpcodeName(NameBlock5(v))
  {
    if v == 21 {
      assert NameBlock5(v) == "MUTE";
    } else if v == 22 {
      assert NameBlock5(v) == "VOLUME_UP";
    } else if v == 23 {
      assert NameBlock5(v) == "VOLUME_DOWN";
    }
  }

  lemma NameBlockIsOpcodeName6(v: nat)
    requires 25 <= v <= 28
    ensures IsOpcodeName(NameBlock6(v))
  {
    if v == 25 {
      assert NameBlock6(v) == "SAVE_STATE";
    } else if v == 26 {
      assert NameBlock6(v) == "STATE_SLOT_PLUS";
    } else if v == 27 {
      assert NameBlock6(v) == "STATE_SLOT_MINUS";
    }
  }

  lemma NameBlockIsOpcodeName7(v: nat)
    requires 29 <= v <= 32
    ensures IsOpcodeName(NameBlock7(v))
  {
    if v == 29 {
      assert NameBlock7(v) == "RECORD_REPLAY";
    } else if v == 30 {
      assert NameBlock7(v) == "HALT_REPLAY";
    } else if v == 31 {
      assert NameBlock7(v) == "REPLAY_SLOT_PLUS";
    }
  }

  lemma NameBlockIsOpcodeName8(v: nat)
    requires 33 <= v <= 36
    ensures IsOpcodeName(NameBlock8(v))
  {
    if v == 33 {
      assert NameBlock8(v) == "DISK_EJECT_TOGGLE";
    } else if v == 34 {
      assert NameBlock8(v) == "DISK_NEXT";
    } else if v == 35 {
      assert NameBlock8(v) == "DISK_PREV";
    }
  }

  lemma NameBlockIsOpcodeName9(v: nat)
    requires 37 <= v <= 40
    ensures IsOpcodeName(NameBlock9(v))
  {
    if v == 37 {
      assert NameBlock9(v) == "SHADER_NEXT";
    } else if v == 38 {
      assert NameBlock9(v) == "SHADER_PREV";
    } else if v == 39 {
      assert NameBlock9(v) == "CHEAT_TOGGLE";
    }
  }

  lemma NameBlockIsOpcodeName10(v: nat)
    requires 41 <= v <= 44
    ensures IsOpcodeName(NameBlock10(v))
  {
    if v == 41 {
      assert NameBlock10(v) == "CHEAT_INDEX_MINUS";
    } else if v == 42 {
      assert NameBlock10(v) == "SCREENSHOT";
    } else if v == 43 {
      assert NameBlock10(v) == "RECORDING_TOGGLE";
    }
  }

  lemma NameBlockIsOpcodeName11(v: nat)
    requires 45 <= v <= 48
    ensures IsOpcodeName(NameBlock11(v))
  {
    if v == 45 {
      assert NameBlock11(v) == "GRAB_MOUSE_TOGGLE";
    } else if v == 46 {
      assert NameBlock11(v) == "GAME_FOCUS_TOGGLE";
    } else if v == 47 {
      assert NameBlock11(v) == "FULLSCREEN_TOGGLE";
    }
  }

  lemma NameBlockIsOpcodeName12(v: nat)
    requires 49 <= v <= 52
    ensures IsOpcodeName(NameBlock12(v))
  {
    if v == 49 {
      assert NameBlock12(v) == "VRR_RUNLOOP_TOGGLE";
    } else if v == 50 {
      assert NameBlock12(v) == "RUNAHEAD_TOGGLE";
    } else if v == 51 {
      assert NameBlock12(v) == "PREEMPT_TOGGLE";
    }
  }

  lemma NameBlockIsOpcodeName13(v: nat)
    requires 53 <= v <= 56
    ensures IsOpcodeName(NameBlock13(v))
  {
    if v == 53 {
      assert NameBlock13(v) == "STATISTICS_TOGGLE";
    } else if v == 54 {
      assert NameBlock13(v) == "AI_SERVICE";
    } else if v == 55 {
      assert NameBlock13(v) == "NETPLAY_PING_TOGGLE";
    }
  }

  lemma NameBlockIsOpcodeName14(v: nat)
    requires 57 <= v <= 60
    ensures IsOpcodeName(NameBlock14(v))
  {
    if v == 57 {
      assert NameBlock14(v) == "NEPLAY_GAME_WATCH";
    } else if v == 58 {
      assert NameBlock14(v) == "NETPLAY_PLAYER_CHAT";
    } else if v == 59 {
      assert NameBlock14(v) == "NETPLAY_FADE_CHAT_TOGGLE";
    }
  }

  lemma NameBlockIsOpcodeName15(v: nat)
    requires 61 <= v <= 64
    ensures IsOpcodeName(NameBlock15(v))
  {
    if v == 61 {
      assert NameBlock15(v) == "MENU_DOWN";
    } else if v == 62 {
      assert NameBlock15(v) == "MENU_LEFT";
    } else if v == 63 {
      assert NameBlock15(v) == "MENU_RIGHT";
    }
  }

  lemma NameBlockIsOpcodeName16(v: nat)
    requires 65 <= v <= 67
    ensures IsOpcodeName(NameBlock16(v))
  {
    if v == 65 {
      assert NameBlock16(v) == "MENU_B";
    } else if v == 66 {
      assert NameBlock16(v) == "OVERLAY_NEXT";
    }
  }

  lemma NameOfValueIsOpcodeName(v: nat)
    requires 1 <= v <= 67
    ensures IsOpcodeName(NameOfValue(v))
  {
    if v <= 4 {
      NameBlockIsOpcodeName0(v);
    } else if v <= 8 {
      NameBlockIsOpcodeName1(v);
    } else if v <= 12 {
      NameBlockIsOpcodeName2(v);
    } else if v <= 16 {
      NameBlockIsOpcodeName3(v);
    } else if v <= 20 {
      NameBlockIsOpcodeName4(v);
    } else if v <= 24 {
      NameBlockIsOpcodeName5(v);
    } else if v <= 28 {
      NameBlockIsOpcodeName6(v);
    } else if v <= 32 {
      NameBlockIsOpcodeName7(v);
    } else if v <= 36 {
      NameBlockIsOpcodeName8(v);
    } else if v <= 40 {
      NameBlockIsOpcodeName9(v);
    } else if v <= 44 {
      NameBlockIsOpcodeName10(v);
    } else if v <= 48 {
      NameBlockIsOpcodeName11(v);
    } else if v <= 52 {
      NameBlockIsOpcodeName12(v);
    } else if v <= 56 {
      NameBlockIsOpcodeName13(v);
    } else if v <= 60 {
      NameBlockIsOpcodeName14(v);
    } else if v <= 64 {
      NameBlockIsOpcodeName15(v);
    } else {
      NameBlockIsOpcodeName16(v);
    }
  }

  /** Every opcode name is spelled with uppercase letters and underscores only. */
  lemma NameIsOpcodeName(command: NciCommand)
    ensures IsOpcodeName(Name(command))
  {
    NameOfValueIsOpcodeName(Value(command));
  }

  /** An opcode name is one whitespace-free ASCII token. */
  lemma OpcodeNameIsToken(s: string)
    requires IsOpcodeName(s)
    ensures IsToken(s) && IsAscii(s)
  {
  }

  /** Every opcode name is a single wire token made of ASCII characters. */
  lemma NameIsToken(command: NciCommand)
    ensures IsOpcodeName(Name(command))
    ensures IsToken(Name(command)) && IsAscii(Name(command))
  {
    NameIsOpcodeName(command);
    OpcodeNameIsToken(Name(command));
  }
}
