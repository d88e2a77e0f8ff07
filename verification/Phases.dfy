// What the runtime shows of itself: the phases of src/app/model.h.

module Phases {
  datatype Phase = Discovering | Empty | Preparing | Ready | Playing | Preserving | Preserved | Attention
}
