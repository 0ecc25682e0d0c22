/** Vocabulary of the prepared mixer graph shared by the solver, the schedule and the Session. */
module Graph {

  const USIZE_MAX: nat := 0xFFFF_FFFF_FFFF_FFFF

  datatype Port = PreFader | PostFaderPreMute | PostMute

  /** Mixer nodes; the output node compares greater than every bus, every bus greater than every track. */
  datatype Origin = Track(id: nat) | Bus(id: nat) | Output(id: nat)

  datatype NodeLatency = NodeLatency(input: nat, preFader: nat, postFader: nat) {
    function At(port: Port): nat {
      match port
      case PreFader => preFader
      case PostFaderPreMute => postFader
      case PostMute => postFader
    }
  }

  /** A linear gain: constant over the plan, or read from automation at a signal sample. */
  datatype Gain = Constant(value: real) | Curve(read: int -> real) {
    function At(sample: int): real {
      match this
      case Constant(value) => value
      case Curve(read) => read(sample)
    }
  }

  datatype Route = Route(source: nat, destination: nat, port: Port, gain: Gain, compensation: nat)
}
