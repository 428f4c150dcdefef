/** The records exchanged by the OCR and video services (src/types/index.ts). */
module Types {
  import opened Wrappers

  /** Raw image bytes (a Node.js Buffer). */
  type Bytes = seq<bv8>

  datatype ROIType = Timer | Kills | Gold

  /** A region of interest. The declared interface makes `type` mandatory,
      but the preset rectangles that the video path passes as ROIs carry no
      such field, so at run time it may be absent. */
  datatype ROI = ROI(x: int, y: int, width: int, height: int, roiType: Option<ROIType>)

  /** What the OCR service returns for one image. */
  datatype OCRResult = OCRResult(text: string, confidence: real, timestamp: Option<int>, roi: Option<ROI>)

  /** One snapshot of the game's overlay. */
  datatype LoLGameData = LoLGameData(
    timer: string,
    blueKills: int,
    redKills: int,
    blueGold: string,
    redGold: string,
    timestamp: int)

  /** A video sampling request; absent fields take defaults in the sampler. */
  datatype ProcessVideoRequest = ProcessVideoRequest(
    videoPath: string,
    startTime: Option<int>,
    endTime: Option<int>,
    frameInterval: Option<int>,
    gamma: Option<real>,
    threshold: Option<real>)
}
