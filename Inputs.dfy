/**
 The values the prediction form collects (app.py:33-53): seven numeric fields
 and seven categorical choices. Each categorical widget offers a fixed list of
 options; `Label()` is the option text the widget returns.
 */
module Inputs {

  datatype Sex = Male | Female {
    function Label(): string {
      match this
      case Male => "Male"
      case Female => "Female"
    }
  }

  /** The answer of a Yes/No radio (exercise-induced angina, family history). */
  datatype Answer = Yes | No {
    function Label(): string {
      match this
      case Yes => "Yes"
      case No => "No"
    }
  }

  datatype SmokingStatus = Never | Former | Current {
    function Label(): string {
      match this
      case Never => "Never"
      case Former => "Former"
      case Current => "Current"
    }
  }

  datatype ChestPainType = ATA | NAP | TA | ASY {
    function Label(): string {
      match this
      case ATA => "ATA"
      case NAP => "NAP"
      case TA => "TA"
      case ASY => "ASY"
    }
  }

  datatype RestingECG = Normal | ST | LVH {
    function Label(): string {
      match this
      case Normal => "Normal"
      case ST => "ST"
      case LVH => "LVH"
    }
  }

  datatype STSlope = Up | Flat | Down {
    function Label(): string {
      match this
      case Up => "Up"
      case Flat => "Flat"
      case Down => "Down"
    }
  }

  /**
   One submission of the form. The floating-point fields `bmi` and `oldpeak`
   are only passed through by the assembler, so they are kept as reals and no
   arithmetic is done on them.
   */
  datatype Form = Form(
    age: int,
    sex: Sex,
    bmi: real,
    smokingStatus: SmokingStatus,
    chestPain: ChestPainType,
    restingBP: int,
    cholesterol: int,
    fastingBS: int,
    restingECG: RestingECG,
    maxHR: int,
    exerciseAngina: Answer,
    oldpeak: real,
    stSlope: STSlope,
    familyHistory: Answer
  )
}
